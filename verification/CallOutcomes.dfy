/** What an attempt raises and leaves on file, in terms of what the provider did. */
module CallOutcomes {
  import opened Common
  import opened AttemptIds
  import opened ModelCalls
  import opened RunBudget
  import opened CallProtocol
  import opened CallRuntime
  import CallSessions
  import TokenUsage

  /** What the caller gets; `refusal` is the tracker's answer when it settles. */
  predicate Raises(outcome: CallOutcome, reply: Reply, refusal: Option<ErrorCode>) {
    if reply.Answered? then
      outcome == if refusal.Some? then BudgetRaised(refusal.value) else Returned(reply.response)
    else if LeftText(reply) then outcome == PartialRaised
    else if reply.connectionNotEstablished then
      outcome == if refusal.Some? then BudgetRaised(refusal.value) else NotSentRaised
    else if reply.definitiveRejection then outcome == RejectedRaised
    else outcome == UncertainRaised(reply.partialSeen)
  }

  /** Nothing tells what became of the request. */
  predicate Silent(reply: Reply) {
    reply.Failed? && !LeftText(reply) && !reply.connectionNotEstablished && !reply.definitiveRejection
  }

  /** Answers and requests that were never sent are settled; every other attempt keeps its reservation. */
  predicate Settles(reply: Reply) {
    reply.Answered? || !MayHaveReached(reply)
  }

  /** What the provider reports to the tracker when the attempt is settled. */
  function SettledWith(store: Store, a: string): Response {
    LoadResponse(store, a).GetOr(Response("", TokenUsage.EMPTY_USAGE, Metadata("", "", "", "")))
  }

  /** Exactly one of these holds of a first attempt: the tracker refuses, and a budget rejection is on file without a call;
      or the provider is called once, the receipt on file reports what it did, and the caller gets what that means. */
  lemma FirstExecutionMeans(store: Store, ledger: Option<Ledger>, call: Call, attempt: nat, reply: Reply, now: int, done: int)
    requires Intact(store) && AttemptName(call.callId, attempt) !in store.intents
    ensures var a, intent := AttemptName(call.callId, attempt), IntentFor(call, attempt, now);
            var after, reserved := ExecuteOnce(store, ledger, call, attempt, reply, now, done), TrackEnsure(ledger, intent, now);
            && after.ran == reserved.refusal.None?
            && a in after.store.intents && after.store.intents[a] == intent
            && (if reserved.refusal.Some? then
                  && after.outcome == BudgetRaised(reserved.refusal.value) && after.ledger == reserved.ledger
                  && a in after.store.receipts && after.store.receipts[a].status == BudgetRejected
                else
                  var settled := TrackRecord(reserved.ledger, intent, SettledWith(after.store, a), done);
                  && (a in after.store.receipts <==> !Silent(reply))
                  && (a in after.store.receipts ==>
                        && LoadResponse(after.store, a).Some?
                        && Reports(after.store.receipts[a].status, LoadResponse(after.store, a).value, reply))
                  && Raises(after.outcome, reply, settled.refusal)
                  && after.ledger == if Settles(reply) then settled.ledger else reserved.ledger)
  {
    var intent := IntentFor(call, attempt, now);
    ClosedExactly(call, reply);
    CallSessions.PublishFresh(store, intent, RejectedResponse(call), BudgetRejected, done);
    if ClosingOf(call, reply).Some? {
      var closing := ClosingOf(call, reply).value;
      CallSessions.PublishFresh(store, intent, closing.response, closing.status, done);
    }
  }

  /** `other` is not the call that was made: a field differs, or it names another number of input tokens than were reserved. */
  predicate Differs(call: Call, other: Call) {
    || other.callId != call.callId || other.provider != call.provider || other.model != call.model || other.stage != call.stage
    || other.request != call.request || other.maxOutput != call.maxOutput
    || (other.explicitInput.Some?
        && other.explicitInput.value != if call.explicitInput.Some? then call.explicitInput.value else call.estimatedInput)
  }

  lemma DiffersExactly(call: Call, other: Call, attempt: nat, now: int)
    ensures Differs(call, other) <==> other.callId != call.callId || !Expected(IntentFor(call, attempt, now), other, attempt)
  {
  }

  lemma KnownConflictsExactly(store: Store, ledger: Option<Ledger>, call: Call, attempt: nat, reply: Reply, now: int, done: int)
    requires AttemptName(call.callId, attempt) in store.intents
    requires var a := AttemptName(call.callId, attempt); a in store.receipts ==> LoadResponse(store, a).Some?
    ensures var again := ExecuteOnce(store, ledger, call, attempt, reply, now, done);
            && again.store == store && !again.ran
            && (again.outcome.ConflictRaised? <==> !Expected(store.intents[AttemptName(call.callId, attempt)], call, attempt))
            && (again.outcome.ConflictRaised? ==> again.ledger == ledger)
  {
  }

  /** Once an attempt was made, another call under its name raises a conflict exactly when it differs, and then changes
      nothing; it never runs the operation. */
  lemma OthersConflictExactly(store: Store, ledger: Option<Ledger>, call: Call, attempt: nat, reply: Reply, now: int, done: int,
                              other: Call, ledger': Option<Ledger>, reply': Reply, now': int, done': int)
    requires Intact(store) && AttemptName(call.callId, attempt) !in store.intents && other.callId == call.callId
    ensures var first := ExecuteOnce(store, ledger, call, attempt, reply, now, done);
            var again := ExecuteOnce(first.store, ledger', other, attempt, reply', now', done');
            && again.store == first.store && !again.ran
            && (again.outcome.ConflictRaised? <==> Differs(call, other))
            && (again.outcome.ConflictRaised? ==> again.ledger == ledger')
  {
    FirstExecutionMeans(store, ledger, call, attempt, reply, now, done);
    DiffersExactly(call, other, attempt, now);
    KnownConflictsExactly(ExecuteOnce(store, ledger, call, attempt, reply, now, done).store, ledger', other, attempt, reply', now', done');
  }

  /** Whoever repeats the attempt gets the same again without a call, except that a lost request shows no partial text any
      more and a budget rejection is an integrity error. */
  lemma RepeatingRaisesTheSame(store: Store, ledger: Option<Ledger>, call: Call, attempt: nat, reply: Reply, now: int,
                               done: int, other: Call, reply': Reply, now': int, done': int)
    requires Intact(store) && AttemptName(call.callId, attempt) !in store.intents && !Differs(call, other)
    ensures var intent, first := IntentFor(call, attempt, now), ExecuteOnce(store, ledger, call, attempt, reply, now, done);
            var again := ExecuteOnce(first.store, None, other, attempt, reply', now', done');
            && again.store == first.store && !again.ran
            && (if TrackEnsure(ledger, intent, now).refusal.Some? then again.outcome == IntegrityRaised
                else if Silent(reply) then again.outcome == UncertainRaised(false)
                else Raises(again.outcome, reply, None))
  {
    FirstExecutionMeans(store, ledger, call, attempt, reply, now, done);
  }
}
