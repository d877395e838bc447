/** What every run of the model-call budget interface keeps. */
module RunBudgetProofs {
  import opened Common
  import opened TokenUsage
  import opened RunBudget

  // ---------- Accounting ----------

  function ChargedInput(r: Reservation): int {
    if r.settlement.Some? then r.settlement.value.input else r.input
  }

  function PendingOutput(r: Reservation): int {
    if r.settlement.Some? then 0 else r.output
  }

  function ActualOutput(r: Reservation): int {
    if r.settlement.Some? then r.settlement.value.output else 0
  }

  /** The counters are the sums the reservation table determines. */
  ghost predicate Accounting(s: Ledger) {
    && s.calls == |s.reservations|
    && s.totalInput == MapSum(s.reservations, ChargedInput)
    && s.reservedOutput == MapSum(s.reservations, PendingOutput)
    && s.totalOutput == MapSum(s.reservations, ActualOutput)
  }

  function GrantedInput(grants: seq<Grant>): int
    decreases |grants|
  {
    if grants == [] then 0 else GrantedInput(grants[..|grants| - 1]) + grants[|grants| - 1].input
  }

  function GrantedOutput(grants: seq<Grant>): int
    decreases |grants|
  {
    if grants == [] then 0 else GrantedOutput(grants[..|grants| - 1]) + grants[|grants| - 1].output
  }

  ghost predicate GrantsAddUp(s: Ledger) {
    s.elasticInput == GrantedInput(s.grants) && s.elasticOutput == GrantedOutput(s.grants)
  }

  lemma WidenAddsUp(s: Ledger, grant: Grant)
    requires GrantsAddUp(s)
    ensures GrantsAddUp(Widen(s, grant))
  {
    assert (s.grants + [grant])[..|s.grants|] == s.grants;
  }

  /** Consuming an authorization touches nothing but limits, grants and authorizations, and only widens. */
  lemma ConsumeWidens(s: Ledger, stage: string, attemptId: string, input: nat, output: nat)
    ensures var t := Consume(s, stage, attemptId, input, output).0;
            && t == s.(elasticInput := t.elasticInput, elasticOutput := t.elasticOutput,
                       grants := t.grants, authorizations := t.authorizations)
            && t.elasticInput >= s.elasticInput && t.elasticOutput >= s.elasticOutput
            && (GrantsAddUp(s) ==> GrantsAddUp(t))
  {
    var t := Consume(s, stage, attemptId, input, output).0;
    if t != s && GrantsAddUp(s) {
      var a := s.authorizations[s.activeId.value];
      WidenAddsUp(s, Grant(s.activeId.value, attemptId, stage, Authorized(a.reason, a.evidence), input, output, false));
    }
  }

  lemma CommitAccounts(s: Ledger, r: Request, authorizationId: Option<string>)
    requires Accounting(s) && r.attemptId !in s.reservations && r.input >= 0 && r.output >= 0
    ensures Accounting(Commit(s, r, authorizationId))
  {
    var reservation := Commit(s, r, authorizationId).reservations[r.attemptId];
    MapSumPut(s.reservations, ChargedInput, r.attemptId, reservation);
    MapSumPut(s.reservations, PendingOutput, r.attemptId, reservation);
    MapSumPut(s.reservations, ActualOutput, r.attemptId, reservation);
  }

  lemma ReserveAccounts(s: Ledger, r: Request, now: int)
    requires Accounting(s) && GrantsAddUp(s)
    ensures Accounting(Reserve(s, r, now).ledger) && GrantsAddUp(Reserve(s, r, now).ledger)
  {
    var consumed := Consume(s, r.stage, r.attemptId, InputDeficit(s, r.input), OutputDeficit(s, r.output));
    ConsumeWidens(s, r.stage, r.attemptId, InputDeficit(s, r.input), OutputDeficit(s, r.output));
    if Reserve(s, r, now).outcome.Done? {
      CommitAccounts(consumed.0, r, consumed.1);
    }
  }

  lemma RestoreAccounts(s: Ledger, r: Request, now: int)
    requires Accounting(s) && GrantsAddUp(s)
    ensures Accounting(Restore(s, r, now).ledger) && GrantsAddUp(Restore(s, r, now).ledger)
  {
    if r.attemptId !in s.reservations {
      var input, output := InputDeficit(s, r.input), OutputDeficit(s, r.output);
      WidenAddsUp(s, Grant(RESTORE_AUTHORIZATION, r.attemptId, r.stage, RestoreDurableAttempt, input, output, true));
      var widened := RestoreGrant(s, r);
      ReserveAccounts(widened, r.(cost := 0.0), now);
      var step := Reserve(widened, r.(cost := 0.0), now);
      if step.outcome.Done? {
        var marked := step.ledger.reservations[r.attemptId].(restored := true);
        MapSumPut(step.ledger.reservations, ChargedInput, r.attemptId, marked);
        MapSumPut(step.ledger.reservations, PendingOutput, r.attemptId, marked);
        MapSumPut(step.ledger.reservations, ActualOutput, r.attemptId, marked);
      }
    }
  }

  lemma RecordAccounts(s: Ledger, attemptId: string, callId: string, text: string, usage: RawUsage, now: int)
    requires Accounting(s) && GrantsAddUp(s)
    ensures var t := Record(s, attemptId, callId, text, usage, now).ledger; Accounting(t) && GrantsAddUp(t)
  {
    var t := Record(s, attemptId, callId, text, usage, now).ledger;
    if t != s {
      var r := s.reservations[attemptId];
      var settled := t.reservations[attemptId];
      MapSumPut(s.reservations, ChargedInput, attemptId, settled);
      MapSumPut(s.reservations, PendingOutput, attemptId, settled);
      MapSumPut(s.reservations, ActualOutput, attemptId, settled);
      var charged := Recharge(s, attemptId, ChargeFor(r, text, usage));
      WidenAddsUp(charged, Grant(ExtensionAuthorization(r), attemptId, r.stage, SettleAuthorizedUsage,
                                 InputDeficit(charged, 0), OutputDeficit(charged, 0), r.restored));
    }
  }

  lemma StepAccounts(s: Ledger, op: Operation)
    requires Accounting(s) && GrantsAddUp(s)
    ensures Accounting(Apply(s, op).ledger) && GrantsAddUp(Apply(s, op).ledger)
  {
    match op
    case DoAuthorize(key, reason, evidence, stages) =>
    case DoReserve(request, now) => ReserveAccounts(s, request, now);
    case DoEnsure(request, now) => ReserveAccounts(s, request, now);
    case DoRestore(request, now) => RestoreAccounts(s, request, now);
    case DoRecord(attemptId, callId, text, usage, now) => RecordAccounts(s, attemptId, callId, text, usage, now);
  }

  /** After any sequence of operations the totals are the table's sums and the limits the grants' sums. */
  lemma {:induction false} EveryRunAccounts(s: Ledger, ops: seq<Operation>)
    requires Accounting(s) && GrantsAddUp(s)
    ensures Accounting(Run(s, ops)) && GrantsAddUp(Run(s, ops))
    decreases |ops|
  {
    if ops == [] {
    } else {
      StepAccounts(s, ops[0]);
      EveryRunAccounts(Apply(s, ops[0]).ledger, ops[1..]);
    }
  }

  // ---------- Limits ----------

  ghost predicate SettledWithError(s: Ledger) {
    exists a :: a in s.reservations && s.reservations[a].settlement.Some? && s.reservations[a].settlement.value.error.Some?
  }

  ghost predicate WithinLimits(s: Ledger) {
    && s.totalInput <= InputLimit(s)
    && s.totalOutput + s.reservedOutput <= OutputLimit(s)
    && s.calls <= s.limits.maxCalls
    && (s.limits.maxCost.Some? ==> s.cost <= s.limits.maxCost.value)
  }

  /** Token totals may leave the limits only after a settlement that reported an error;
      the call count and the cost never do. */
  ghost predicate Bounded(s: Ledger) {
    s.reservations != map[] ==>
      && s.calls <= s.limits.maxCalls
      && (s.limits.maxCost.Some? ==> s.cost <= s.limits.maxCost.value)
      && (SettledWithError(s) || WithinLimits(s))
  }

  lemma ReserveBounded(s: Ledger, r: Request, now: int)
    requires Bounded(s)
    ensures Bounded(Reserve(s, r, now).ledger)
  {
    ConsumeWidens(s, r.stage, r.attemptId, InputDeficit(s, r.input), OutputDeficit(s, r.output));
    var step := Reserve(s, r, now);
    if step.outcome.Done? {
      assert WithinLimits(step.ledger);
    } else {
      KeepsErrors(s, step.ledger);
    }
  }

  lemma KeepsErrors(s: Ledger, t: Ledger)
    requires forall a | a in s.reservations :: a in t.reservations
    requires forall a | a in s.reservations && s.reservations[a].settlement.Some? ::
               t.reservations[a].settlement == s.reservations[a].settlement
    ensures SettledWithError(s) ==> SettledWithError(t)
  {
    if a :| a in s.reservations && s.reservations[a].settlement.Some? && s.reservations[a].settlement.value.error.Some? {
      assert a in t.reservations && t.reservations[a].settlement == s.reservations[a].settlement;
    }
  }

  lemma RestoreBounded(s: Ledger, r: Request, now: int)
    requires Bounded(s)
    ensures Bounded(Restore(s, r, now).ledger)
  {
    if r.attemptId !in s.reservations {
      var widened := RestoreGrant(s, r);
      KeepsErrors(s, widened);
      assert Bounded(widened);
      var step := Reserve(widened, r.(cost := 0.0), now);
      ReserveBounded(widened, r.(cost := 0.0), now);
      if step.outcome.Done? {
        assert WithinLimits(step.ledger);
        assert WithinLimits(MarkRestored(step.ledger, r.attemptId));
      }
    }
  }

  lemma RecordBounded(s: Ledger, attemptId: string, callId: string, text: string, usage: RawUsage, now: int)
    requires Bounded(s)
    ensures Bounded(Record(s, attemptId, callId, text, usage, now).ledger)
  {
    var step := Record(s, attemptId, callId, text, usage, now);
    var t := step.ledger;
    if t != s {
      var settled := t.reservations[attemptId].settlement.value;
      if settled.error.Some? {
        assert SettledWithError(t);
      } else {
        var charged := Recharge(s, attemptId, ChargeFor(s.reservations[attemptId], text, usage));
        assert t.totalInput == charged.totalInput <= InputLimit(t);
        assert WithinLimits(t);
      }
    }
  }

  lemma StepBounded(s: Ledger, op: Operation)
    requires Bounded(s)
    ensures Bounded(Apply(s, op).ledger)
  {
    match op
    case DoAuthorize(key, reason, evidence, stages) => KeepsErrors(s, Apply(s, op).ledger);
    case DoReserve(request, now) => ReserveBounded(s, request, now);
    case DoEnsure(request, now) => ReserveBounded(s, request, now);
    case DoRestore(request, now) => ReserveBounded(s, request.(cost := 0.0), now); RestoreBounded(s, request, now);
    case DoRecord(attemptId, callId, text, usage, now) => RecordBounded(s, attemptId, callId, text, usage, now);
  }

  /** In every state a run reaches, a token total above base limit plus grants is
      traceable to a settlement that reported an error. */
  lemma {:induction false} EveryRunBounded(s: Ledger, ops: seq<Operation>)
    requires Bounded(s)
    ensures Bounded(Run(s, ops))
    decreases |ops|
  {
    if ops == [] {
    } else {
      StepBounded(s, ops[0]);
      EveryRunBounded(Apply(s, ops[0]).ledger, ops[1..]);
    }
  }
}
