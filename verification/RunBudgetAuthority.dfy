/** Elastic authorizations over whole runs, refusals, repeated settlement and the older output entry point. */
module RunBudgetAuthority {
  import opened Common
  import opened TokenUsage
  import opened RunBudget
  import opened RunBudgetProofs

  // ---------- One active authorization, consumed once per stage ----------

  /** Only the current authorization is active. */
  ghost predicate OneActive(s: Ledger) {
    forall k | k in s.authorizations && s.authorizations[k].active :: s.activeId == Some(k)
  }

  /** Stages are consumed at most once per authorization and only if permitted. */
  ghost predicate ConsumedOnce(s: Ledger) {
    forall k | k in s.authorizations ::
      && NoRepeats(s.authorizations[k].consumed)
      && forall stage | stage in s.authorizations[k].consumed :: stage in s.authorizations[k].stages
  }

  /** Every authorized grant is backed by its own consumed (authorization, stage) pair. */
  ghost predicate GrantsBacked(s: Ledger) {
    && (forall g | g in s.grants && g.reason.Authorized? ::
          g.authorizationId in s.authorizations && g.stage in s.authorizations[g.authorizationId].consumed)
    && (forall i, j | 0 <= i < j < |s.grants| && s.grants[i].reason.Authorized? && s.grants[j].reason.Authorized? ::
          s.grants[i].authorizationId != s.grants[j].authorizationId || s.grants[i].stage != s.grants[j].stage)
  }

  ghost predicate Disciplined(s: Ledger) {
    OneActive(s) && ConsumedOnce(s) && GrantsBacked(s)
  }

  /** Widening without an authorization keeps the discipline. */
  lemma WidenUnauthorized(s: Ledger, grant: Grant)
    requires Disciplined(s) && !grant.reason.Authorized?
    ensures Disciplined(Widen(s, grant))
  {
    var t := Widen(s, grant);
    forall g | g in t.grants && g.reason.Authorized?
      ensures g.authorizationId in t.authorizations && g.stage in t.authorizations[g.authorizationId].consumed
    {
      assert g in s.grants;
    }
  }

  lemma ConsumeDisciplined(s: Ledger, stage: string, attemptId: string, input: nat, output: nat)
    requires Disciplined(s)
    ensures Disciplined(Consume(s, stage, attemptId, input, output).0)
  {
    var t := Consume(s, stage, attemptId, input, output).0;
    if t != s {
      var key := s.activeId.value;
      forall g | g in t.grants && g.reason.Authorized?
        ensures g.authorizationId in t.authorizations && g.stage in t.authorizations[g.authorizationId].consumed
      {
        if g in s.grants {
          assert g.stage in s.authorizations[g.authorizationId].consumed;
        }
      }
      forall i, j | 0 <= i < j < |t.grants| && t.grants[i].reason.Authorized? && t.grants[j].reason.Authorized?
        ensures t.grants[i].authorizationId != t.grants[j].authorizationId || t.grants[i].stage != t.grants[j].stage
      {
        if j == |s.grants| {
          assert s.grants[i] in s.grants;
        }
      }
    }
  }

  /** The discipline does not look at the reservation table or the totals. */
  lemma DisciplineIgnoresTotals(s: Ledger, t: Ledger)
    requires Disciplined(s)
    requires t.authorizations == s.authorizations && t.activeId == s.activeId && t.grants == s.grants
    ensures Disciplined(t)
  {
  }

  lemma ReserveDisciplined(s: Ledger, r: Request, now: int)
    requires Disciplined(s)
    ensures Disciplined(Reserve(s, r, now).ledger)
  {
    var t := Consume(s, r.stage, r.attemptId, InputDeficit(s, r.input), OutputDeficit(s, r.output)).0;
    ConsumeDisciplined(s, r.stage, r.attemptId, InputDeficit(s, r.input), OutputDeficit(s, r.output));
    if Reserve(s, r, now).ledger != s {
      DisciplineIgnoresTotals(t, Reserve(s, r, now).ledger);
    }
  }

  lemma RestoreDisciplined(s: Ledger, r: Request, now: int)
    requires Disciplined(s)
    ensures Disciplined(Restore(s, r, now).ledger)
  {
    if r.attemptId !in s.reservations {
      WidenUnauthorized(s, Grant(RESTORE_AUTHORIZATION, r.attemptId, r.stage, RestoreDurableAttempt,
                                 InputDeficit(s, r.input), OutputDeficit(s, r.output), true));
      ReserveDisciplined(RestoreGrant(s, r), r.(cost := 0.0), now);
      DisciplineIgnoresTotals(Reserve(RestoreGrant(s, r), r.(cost := 0.0), now).ledger, Restore(s, r, now).ledger);
    }
  }

  lemma RecordDisciplined(s: Ledger, attemptId: string, callId: string, text: string, usage: RawUsage, now: int)
    requires Disciplined(s)
    ensures Disciplined(Record(s, attemptId, callId, text, usage, now).ledger)
  {
    var t := Record(s, attemptId, callId, text, usage, now).ledger;
    if t.grants == s.grants {
      DisciplineIgnoresTotals(s, t);
    } else {
      var r := s.reservations[attemptId];
      var charged := Recharge(s, attemptId, ChargeFor(r, text, usage));
      DisciplineIgnoresTotals(s, charged);
      WidenUnauthorized(charged, t.grants[|s.grants|]);
      DisciplineIgnoresTotals(Widen(charged, t.grants[|s.grants|]), t);
    }
  }

  /** The grants are the same, known authorizations keep what they permitted and what was consumed, new ones are unused. */
  ghost predicate CarriesOver(s: Ledger, t: Ledger) {
    && t.grants == s.grants
    && (forall k | k in s.authorizations ::
          && k in t.authorizations && t.authorizations[k].consumed == s.authorizations[k].consumed
          && t.authorizations[k].stages == s.authorizations[k].stages)
    && forall k | k in t.authorizations && k !in s.authorizations :: t.authorizations[k].consumed == []
  }

  lemma CarriedDiscipline(s: Ledger, t: Ledger)
    requires Disciplined(s) && CarriesOver(s, t) && OneActive(t)
    ensures Disciplined(t)
  {
    assert GrantsBacked(t) by {
      forall g | g in t.grants && g.reason.Authorized?
        ensures g.authorizationId in t.authorizations && g.stage in t.authorizations[g.authorizationId].consumed
      {
        assert g in s.grants;
      }
    }
    assert ConsumedOnce(t) by {
      forall k | k in t.authorizations
        ensures NoRepeats(t.authorizations[k].consumed)
        ensures forall stage | stage in t.authorizations[k].consumed :: stage in t.authorizations[k].stages
      {
        if k in s.authorizations {
          assert t.authorizations[k].consumed == s.authorizations[k].consumed;
        }
      }
    }
  }

  lemma AuthorizeCarries(s: Ledger, key: string, reason: string, evidence: string, stages: seq<string>)
    requires OneActive(s)
    ensures var t := Authorize(s, key, reason, evidence, stages).ledger;
            CarriesOver(s, t) && OneActive(t)
  {
    var normalized := NormalizeStages(stages);
    var known := if key in s.authorizations then s.authorizations
                 else s.authorizations[key := Authorization(reason, evidence, normalized, [], true)];
    SupersedeKeeps(known, s.activeId, key);
  }

  lemma SupersedeKeeps(known: map<string, Authorization>, previous: Option<string>, key: string)
    ensures var next := Supersede(known, previous, key);
            && next.Keys == known.Keys
            && (forall k | k in known :: next[k].consumed == known[k].consumed && next[k].stages == known[k].stages)
            && (forall k | k in known && next[k].active :: known[k].active && (k == key || previous != Some(k)))
  {
  }

  lemma AuthorizeDisciplined(s: Ledger, key: string, reason: string, evidence: string, stages: seq<string>)
    requires Disciplined(s)
    ensures Disciplined(Authorize(s, key, reason, evidence, stages).ledger)
  {
    AuthorizeCarries(s, key, reason, evidence, stages);
    CarriedDiscipline(s, Authorize(s, key, reason, evidence, stages).ledger);
  }

  lemma StepDisciplined(s: Ledger, op: Operation)
    requires Disciplined(s)
    ensures Disciplined(Apply(s, op).ledger)
  {
    match op
    case DoAuthorize(key, reason, evidence, stages) => AuthorizeDisciplined(s, key, reason, evidence, stages);
    case DoReserve(request, now) => ReserveDisciplined(s, request, now);
    case DoEnsure(request, now) => ReserveDisciplined(s, request, now);
    case DoRestore(request, now) => ReserveDisciplined(s, request.(cost := 0.0), now); RestoreDisciplined(s, request, now);
    case DoRecord(attemptId, callId, text, usage, now) => RecordDisciplined(s, attemptId, callId, text, usage, now);
  }

  lemma {:induction false} EveryRunDisciplined(s: Ledger, ops: seq<Operation>)
    requires Disciplined(s)
    ensures Disciplined(Run(s, ops))
    decreases |ops|
  {
    if ops == [] {
    } else {
      StepDisciplined(s, ops[0]);
      EveryRunDisciplined(Apply(s, ops[0]).ledger, ops[1..]);
    }
  }

  lemma StepKeepsSuperseded(s: Ledger, op: Operation, key: string)
    requires key in s.authorizations && !s.authorizations[key].active
    ensures key in Apply(s, op).ledger.authorizations
    ensures Apply(s, op).ledger.authorizations[key] == s.authorizations[key]
  {
    match op
    case DoAuthorize(_, _, _, _) =>
    case DoReserve(request, now) =>
    case DoEnsure(request, now) =>
    case DoRestore(request, now) =>
      assert RestoreGrant(s, request).authorizations == s.authorizations;
      assert Apply(RestoreGrant(s, request), DoReserve(request.(cost := 0.0), now)).ledger.authorizations[key] == s.authorizations[key];
    case DoRecord(attemptId, callId, text, usage, now) =>
      assert Apply(s, op).ledger.authorizations == s.authorizations;
  }

  /** A superseded authorization stays superseded and grants nothing more, whatever follows. */
  lemma {:induction false} SupersededNeverRevives(s: Ledger, ops: seq<Operation>, key: string)
    requires key in s.authorizations && !s.authorizations[key].active
    ensures key in Run(s, ops).authorizations && Run(s, ops).authorizations[key] == s.authorizations[key]
    decreases |ops|
  {
    if ops == [] {
    } else {
      StepKeepsSuperseded(s, ops[0], key);
      SupersededNeverRevives(Apply(s, ops[0]).ledger, ops[1..], key);
    }
  }

  /** From a fresh tracker every run adds up, stays within its widened limits up to reported
      settlement errors, and keeps the authorization discipline. */
  lemma {:induction false} EveryRunFromFresh(limits: Limits, startedAt: int, ops: seq<Operation>)
    ensures var s := Run(Fresh(limits, startedAt), ops);
            Accounting(s) && GrantsAddUp(s) && Bounded(s) && Disciplined(s)
  {
    var s := Fresh(limits, startedAt);
    EveryRunAccounts(s, ops);
    EveryRunBounded(s, ops);
    EveryRunDisciplined(s, ops);
  }

  // ---------- Refusals ----------

  /** The part of the ledger a charge is visible in. */
  predicate SameCharges(s: Ledger, t: Ledger) {
    && t.calls == s.calls && t.totalInput == s.totalInput && t.totalOutput == s.totalOutput
    && t.reservedOutput == s.reservedOutput && t.cost == s.cost && t.reservations == s.reservations
  }

  /** A refused reservation charges nothing. It leaves the ledger exactly as it was unless the cost
      check is what refused it after an elastic authorization had been consumed. */
  lemma RefusedReservationChargesNothing(s: Ledger, r: Request, now: int)
    ensures var step := Reserve(s, r, now);
            step.outcome.Refused? ==>
              && SameCharges(s, step.ledger)
              && (step.ledger != s <==>
                    && step.outcome.code == CostExceeded
                    && MayConsume(s, r.stage)
                    && (InputDeficit(s, r.input) > 0 || OutputDeficit(s, r.output) > 0))
  {
    var step := Reserve(s, r, now);
    if step.outcome.Refused? && step.ledger != s {
      assert step.ledger.grants != s.grants;
    }
  }

  /** A reservation is accepted exactly when it is well formed, new, in time, within the call and
      cost limits, and either fits the token limits or may consume an elastic authorization. */
  lemma ReservationAcceptedExactly(s: Ledger, r: Request, now: int)
    ensures Reserve(s, r, now).outcome.Done? <==>
              && !Expired(s, now)
              && r.input >= 0 && r.output >= 0 && r.callId != "" && r.attemptId != ""
              && r.attemptId !in s.reservations
              && s.calls < s.limits.maxCalls
              && ((InputDeficit(s, r.input) == 0 && OutputDeficit(s, r.output) == 0) || MayConsume(s, r.stage))
              && (s.limits.maxCost.Some? ==> s.cost + r.cost <= s.limits.maxCost.value)
  {
  }

  /** Restoring ignores the token limits; it is refused for time, form, calls or cost only. */
  lemma RestoreAcceptedExactly(s: Ledger, r: Request, now: int)
    requires r.attemptId !in s.reservations
    ensures Restore(s, r, now).outcome.Done? <==>
              && !Expired(s, now)
              && r.input >= 0 && r.output >= 0 && r.callId != "" && r.attemptId != ""
              && s.calls < s.limits.maxCalls
              && (s.limits.maxCost.Some? ==> s.cost <= s.limits.maxCost.value)
    ensures Restore(s, r, now).outcome.Refused? ==> SameCharges(s, Restore(s, r, now).ledger)
  {
    ReservationAcceptedExactly(RestoreGrant(s, r), r.(cost := 0.0), now);
    RefusedReservationChargesNothing(RestoreGrant(s, r), r.(cost := 0.0), now);
  }

  // ---------- Settling ----------

  /** Once an attempt is settled, settling it again, with any response and at any time, changes nothing
      and reports what the first settlement reported. */
  lemma SettlingIsIdempotent(s: Ledger, attemptId: string, callId: string, text: string, usage: RawUsage, now: int,
                             text': string, usage': RawUsage, now': int)
    requires attemptId in s.reservations && s.reservations[attemptId].callId == callId
    requires !Expired(s, now) || s.reservations[attemptId].settlement.Some?
    ensures var first := Record(s, attemptId, callId, text, usage, now);
            var second := Record(first.ledger, attemptId, callId, text', usage', now');
            second.ledger == first.ledger && second.outcome == first.outcome
  {
  }

  /** The first settlement replaces the reserved amounts by the charge, whatever it then reports,
      and nothing about any other attempt changes. */
  lemma SettlementIsTruthful(s: Ledger, attemptId: string, callId: string, text: string, usage: RawUsage, now: int)
    requires Accounting(s)
    requires attemptId in s.reservations && s.reservations[attemptId].callId == callId
    requires s.reservations[attemptId].settlement.None? && !Expired(s, now)
    ensures var r := s.reservations[attemptId];
            var c := ChargeFor(r, text, usage);
            var t := Record(s, attemptId, callId, text, usage, now).ledger;
            && t.totalInput == s.totalInput - r.input + c.input
            && t.totalOutput + t.reservedOutput == s.totalOutput + s.reservedOutput - r.output + c.output
            && t.reservations[attemptId].settlement.Some?
            && t.reservations - {attemptId} == s.reservations - {attemptId}
            && t.calls == s.calls && t.cost == s.cost
  {
  }

  /** The first settlement of an attempt reports an error exactly when the usage is rejected, or when it pushes a total
      over its limit and the attempt has neither an elastic authorization nor a durable restore to extend; a rejected
      usage is reported first, then the input, then the output. */
  lemma SettlementErrorExactly(s: Ledger, attemptId: string, callId: string, text: string, usage: RawUsage, now: int)
    requires attemptId in s.reservations && s.reservations[attemptId].callId == callId
    requires s.reservations[attemptId].settlement.None? && !Expired(s, now)
    ensures var r := s.reservations[attemptId];
            var c := ChargeFor(r, text, usage);
            var unexplainable := !(WellFormed(usage) && exists i: nat, o: nat :: Explains(usage, i, o));
            var inputOver := s.totalInput - r.input + c.input > InputLimit(s);
            var outputOver := s.totalOutput + s.reservedOutput - r.output + c.output > OutputLimit(s);
            var outcome := Record(s, attemptId, callId, text, usage, now).outcome;
            && (outcome == Refused(UsageInvalid) <==> unexplainable)
            && (outcome == Refused(InputExceeded) <==> !unexplainable && !MayExtend(r) && inputOver)
            && (outcome == Refused(OutputExceeded) <==> !unexplainable && !MayExtend(r) && !inputOver && outputOver)
            && (outcome == Done(false) <==> !unexplainable && (MayExtend(r) || (!inputOver && !outputOver)))
  {
    InvalidMeansUnexplainable(usage);
  }

  // ---------- The older output entry point ----------

  /** Reserve all the output a run may ever use: the older entry point still accepts that much output again. */
  lemma RecordOutputIgnoresReservations(limits: Limits, now: int)
    requires limits.maxCalls >= 1 && limits.maxInput >= 0 && limits.maxOutput > 0 && limits.maxElapsed >= 0
    requires limits.maxCost.None?
    ensures var r := Request("attempt", "call", 0, limits.maxOutput, "", 0.0);
            var s := Reserve(Fresh(limits, now), r, now).ledger;
            && WithinLimits(s)
            && RecordOutput(s, limits.maxOutput, 0.0, now).outcome.Done?
            && !WithinLimits(RecordOutput(s, limits.maxOutput, 0.0, now).ledger)
  {
    var r := Request("attempt", "call", 0, limits.maxOutput, "", 0.0);
    assert Reserve(Fresh(limits, now), r, now).ledger == Commit(Fresh(limits, now), r, None);
  }

  /** Whenever it is accepted it keeps the limits exactly if the caller stays within the capacity
      that the tracker reports as remaining. */
  lemma RecordOutputSafeExactly(s: Ledger, output: nat, cost: real, now: int)
    requires WithinLimits(s)
    requires RecordOutput(s, output, cost, now).outcome.Done?
    ensures WithinLimits(RecordOutput(s, output, cost, now).ledger) <==> output <= RemainingOutput(s)
  {
  }
}
