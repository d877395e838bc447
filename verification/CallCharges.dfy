/** What an attempt charges to the tracker, and what repeating it charges to another one. */
module CallCharges {
  import opened Common
  import opened AttemptIds
  import opened ModelCalls
  import opened RunBudget
  import opened CallRuntime
  import opened CallOutcomes
  import opened RunBudgetGrants
  import TokenUsage
  import Utf8

  function InputOf(call: Call): nat {
    if call.explicitInput.Some? then call.explicitInput.value else call.estimatedInput
  }

  /** What an answer is charged. */
  function AnswerCharge(call: Call, response: Response): TokenUsage.Charge {
    TokenUsage.Settlement(TokenUsage.Parse(response.usage), InputOf(call), call.maxOutput, Utf8.Length(response.text))
  }

  /** One more attempt is in the table, for this call, and in the totals: in full while it is open, and by its charge once
      it is settled. */
  predicate Adds(s: Ledger, t: Ledger, a: string, call: Call, charge: Option<TokenUsage.Charge>) {
    && a in t.reservations && t.reservations == s.reservations[a := t.reservations[a]] && t.calls == s.calls + 1
    && var r := t.reservations[a];
       && r.callId == call.callId && r.input == InputOf(call) && r.output == call.maxOutput && r.stage == call.stage
       && match charge
          case None =>
            && r.settlement.None? && t.totalInput == s.totalInput + InputOf(call)
            && t.reservedOutput == s.reservedOutput + call.maxOutput && t.totalOutput == s.totalOutput
          case Some(c) =>
            && r.settlement.Some? && r.settlement.value.input == c.input && r.settlement.value.output == c.output
            && t.totalInput == s.totalInput + c.input
            && t.reservedOutput == s.reservedOutput && t.totalOutput == s.totalOutput + c.output
  }

  predicate ChargesNothing(s: Ledger, t: Ledger) {
    && t.reservations == s.reservations && t.calls == s.calls && t.totalInput == s.totalInput
    && t.reservedOutput == s.reservedOutput && t.totalOutput == s.totalOutput
  }

  lemma EnsureAdds(s: Ledger, call: Call, attempt: nat, now: int)
    requires AttemptName(call.callId, attempt) !in s.reservations
    ensures var intent := IntentFor(call, attempt, now);
            var reserved := TrackEnsure(Some(s), intent, now);
            && reserved.ledger.Some?
            && (reserved.refusal.Some? ==> ChargesNothing(s, reserved.ledger.value))
            && (reserved.refusal.None? ==> Adds(s, reserved.ledger.value, intent.attemptId, call, None))
            && reserved.ledger.value.limits == s.limits && reserved.ledger.value.startedAt == s.startedAt
  {
  }

  lemma RestoredInTime(s: Ledger, r: Request, now: int)
    requires r.attemptId !in s.reservations
    ensures var step := Restore(s, r, now);
            && (step.outcome.Done? ==> now - s.startedAt <= s.limits.maxElapsed)
            && (step.outcome.Refused? ==> step.ledger.totalInput == s.totalInput && step.ledger.reservedOutput == s.reservedOutput
                                          && step.ledger.totalOutput == s.totalOutput)
            && step.ledger.limits == s.limits && step.ledger.startedAt == s.startedAt
  {
  }

  lemma RestoreAdds(s: Ledger, call: Call, attempt: nat, created: int, now: int)
    requires AttemptName(call.callId, attempt) !in s.reservations
    ensures var intent := IntentFor(call, attempt, created);
            var restored := TrackRestore(Some(s), intent, now);
            && restored.ledger.Some?
            && (restored.refusal.Some? ==> ChargesNothing(s, restored.ledger.value))
            && (restored.refusal.None? ==>
                  && Adds(s, restored.ledger.value, intent.attemptId, call, None)
                  && now - s.startedAt <= s.limits.maxElapsed)
            && restored.ledger.value.limits == s.limits && restored.ledger.value.startedAt == s.startedAt
  {
    var r := RequestOf(IntentFor(call, attempt, created));
    RestoringGrantsExactly(s, r, now);
    RestoredInTime(s, r, now);
  }

  lemma RecordSettles(s: Ledger, t: Ledger, call: Call, attempt: nat, created: int, response: Response, now: int)
    requires Adds(s, t, AttemptName(call.callId, attempt), call, None)
    ensures var recorded := TrackRecord(Some(t), IntentFor(call, attempt, created), response, now);
            && recorded.ledger.Some?
            && (if now - t.startedAt > t.limits.maxElapsed then recorded.ledger.value == t
                else Adds(s, recorded.ledger.value, AttemptName(call.callId, attempt), call, Some(AnswerCharge(call, response))))
  {
  }

  lemma NothingSentNothingCharged(call: Call, response: Response)
    requires NothingCharged(response)
    ensures AnswerCharge(call, response) == TokenUsage.Charge(0, 0)
  {
  }

  /** A first execution that ran adds its attempt: an answer is charged as its usage says, a request that was never sent
      nothing, and everything else, or whatever ends too late to be settled, in full. One that was refused charges nothing. */
  lemma FirstExecutionCharges(store: Store, s: Ledger, call: Call, attempt: nat, reply: Reply, now: int, done: int)
    requires Intact(store) && AttemptName(call.callId, attempt) !in store.intents
    requires AttemptName(call.callId, attempt) !in s.reservations
    ensures var after := ExecuteOnce(store, Some(s), call, attempt, reply, now, done);
            && after.ledger.Some?
            && (if !after.ran then ChargesNothing(s, after.ledger.value)
                else
                  Adds(s, after.ledger.value, AttemptName(call.callId, attempt), call,
                       if done - s.startedAt > s.limits.maxElapsed then None
                       else if reply.Answered? then Some(AnswerCharge(call, reply.response))
                       else if MayHaveReached(reply) then None
                       else Some(TokenUsage.Charge(0, 0))))
  {
    var intent := IntentFor(call, attempt, now);
    FirstExecutionMeans(store, Some(s), call, attempt, reply, now, done);
    EnsureAdds(s, call, attempt, now);
    var reserved := TrackEnsure(Some(s), intent, now);
    if reserved.refusal.None? && Settles(reply) {
      var response := SettledWith(ExecuteOnce(store, Some(s), call, attempt, reply, now, done).store, intent.attemptId);
      RecordSettles(s, reserved.ledger.value, call, attempt, now, response, done);
      if !reply.Answered? {
        NothingSentNothingCharged(call, response);
      }
    }
  }

  /** Nothing is charged for it when it is repeated: it was never sent, or the provider turned it away. */
  predicate Closed(reply: Reply) {
    reply.Failed? && !LeftText(reply) && (reply.connectionNotEstablished || reply.definitiveRejection)
  }

  /** Repeating an attempt that another tracker has not seen charges that tracker for the call that was made, by the usage
      of its answer or in full, unless the tracker refuses, or nothing need be charged. */
  lemma RepeatingCharges(store: Store, ledger: Option<Ledger>, call: Call, attempt: nat, reply: Reply, now: int, done: int,
                         other: Call, s: Ledger, reply': Reply, now': int, done': int)
    requires Intact(store) && AttemptName(call.callId, attempt) !in store.intents && !Differs(call, other)
    requires AttemptName(call.callId, attempt) !in s.reservations
    ensures var first := ExecuteOnce(store, ledger, call, attempt, reply, now, done);
            var again := ExecuteOnce(first.store, Some(s), other, attempt, reply', now', done');
            && again.ledger.Some?
            && (if !first.ran || Closed(reply) then again.ledger.value == s
                else
                  || (again.outcome.BudgetRaised? && ChargesNothing(s, again.ledger.value))
                  || Adds(s, again.ledger.value, AttemptName(call.callId, attempt), call,
                          if reply.Answered? then Some(AnswerCharge(call, reply.response)) else None))
  {
    FirstExecutionMeans(store, ledger, call, attempt, reply, now, done);
    RestoreAdds(s, call, attempt, now, now');
    var restored := TrackRestore(Some(s), IntentFor(call, attempt, now), now');
    if reply.Answered? && restored.refusal.None? {
      RecordSettles(s, restored.ledger.value, call, attempt, now, reply.response, now');
    }
  }
}
