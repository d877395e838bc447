/** How far the token limits are widened: always by exactly what is missing, and never beyond what a run asked for. */
module RunBudgetGrants {
  import opened Common
  import opened TokenUsage
  import opened RunBudget

  // ---------- One operation ----------

  /** By how much so many more input tokens go over the base limit and all grants so far. */
  function MissingInput(s: Ledger, more: int): nat {
    var over := s.totalInput + more - s.limits.maxInput - s.elasticInput;
    if over > 0 then over else 0
  }

  /** The same for output, settled or still reserved. */
  function MissingOutput(s: Ledger, more: int): nat {
    var over := s.totalOutput + s.reservedOutput + more - s.limits.maxOutput - s.elasticOutput;
    if over > 0 then over else 0
  }

  predicate SameLimits(s: Ledger, t: Ledger) {
    && t.limits == s.limits && t.startedAt == s.startedAt
    && t.grants == s.grants && t.elasticInput == s.elasticInput && t.elasticOutput == s.elasticOutput
  }

  /** One grant was added, and it widened the limits by what it says. */
  predicate OneGrant(s: Ledger, t: Ledger, g: Grant) {
    && t.limits == s.limits && t.startedAt == s.startedAt && t.grants == s.grants + [g]
    && t.elasticInput == s.elasticInput + g.input && t.elasticOutput == s.elasticOutput + g.output
  }

  /** Where something was missing the limit is now met exactly. */
  predicate MeetsLimits(s: Ledger, t: Ledger, g: Grant) {
    && (g.input > 0 ==> t.totalInput == t.limits.maxInput + t.elasticInput)
    && (g.output > 0 ==> t.totalOutput + t.reservedOutput == t.limits.maxOutput + t.elasticOutput)
  }

  /** The current authorization permits the stage and has not been used for it. */
  predicate Usable(s: Ledger, stage: string) {
    exists key :: s.activeId == Some(key) && key in s.authorizations && s.authorizations[key].active
                  && stage in s.authorizations[key].stages && stage !in s.authorizations[key].consumed
  }

  /** The grant a reservation takes from the current authorization. */
  function AuthorizedGrant(s: Ledger, r: Request): Grant
    requires s.activeId.Some? && s.activeId.value in s.authorizations
  {
    var key := s.activeId.value;
    Grant(key, r.attemptId, r.stage, Authorized(s.authorizations[key].reason, s.authorizations[key].evidence),
          MissingInput(s, r.input), MissingOutput(s, r.output), false)
  }

  /** The attempt is entered and charged in full, and nothing else changes but limits and authorizations. */
  predicate Charged(s: Ledger, t: Ledger, r: Request, authorizationId: Option<string>, restored: bool)
    requires r.input >= 0 && r.output >= 0
  {
    && t.calls == s.calls + 1 && t.totalInput == s.totalInput + r.input && t.totalOutput == s.totalOutput
    && t.reservedOutput == s.reservedOutput + r.output && t.activeId == s.activeId
    && t.reservations == s.reservations[r.attemptId := Reservation(r.callId, r.input, r.output, r.stage, authorizationId,
                                                                   restored, None)]
  }

  /** An accepted reservation that fits takes no grant. One that does not fit uses the current authorization for its stage,
      once, for exactly what is missing, so that the limit is then met exactly. A refusal leaves the limits, except that a
      refusal for cost comes after the grant. */
  lemma ReservationGrantsExactly(s: Ledger, r: Request, now: int)
    ensures var step := Reserve(s, r, now);
            var t, missing := step.ledger, MissingInput(s, r.input) > 0 || MissingOutput(s, r.output) > 0;
            && (step.outcome.Done? ==>
                  && r.input >= 0 && r.output >= 0 && t.cost == s.cost + r.cost
                  && (if !missing then
                        SameLimits(s, t) && t.authorizations == s.authorizations && Charged(s, t, r, None, false)
                      else
                        && Usable(s, r.stage) && OneGrant(s, t, AuthorizedGrant(s, r)) && MeetsLimits(s, t, AuthorizedGrant(s, r))
                        && Charged(s, t, r, s.activeId, false)
                        && var key := s.activeId.value; var a := s.authorizations[key];
                           t.authorizations == s.authorizations[key := a.(consumed := a.consumed + [r.stage])]))
            && (step.outcome.Refused? ==>
                  || t == s
                  || (step.outcome.code == CostExceeded && missing && Usable(s, r.stage) && OneGrant(s, t, AuthorizedGrant(s, r))))
  {
  }

  function RestoredGrant(s: Ledger, r: Request): Grant {
    Grant(RESTORE_AUTHORIZATION, r.attemptId, r.stage, RestoreDurableAttempt, MissingInput(s, r.input),
          MissingOutput(s, r.output), true)
  }

  /** Restoring an attempt not in the table adds what is missing as a grant of its own, even when it is then refused;
      no authorization is used. */
  lemma RestoringGrantsExactly(s: Ledger, r: Request, now: int)
    requires r.attemptId !in s.reservations
    ensures var step := Restore(s, r, now);
            var t, g := step.ledger, RestoredGrant(s, r);
            && t.authorizations == s.authorizations && t.activeId == s.activeId && t.cost == s.cost
            && (if g.input == 0 && g.output == 0 then SameLimits(s, t) else OneGrant(s, t, g))
            && (step.outcome.Done? ==> r.input >= 0 && r.output >= 0 && Charged(s, t, r, None, true) && MeetsLimits(s, t, g))
            && (step.outcome.Refused? ==> t.reservations == s.reservations && t.calls == s.calls)
  {
    ReservationGrantsExactly(RestoreGrant(s, r), r.(cost := 0.0), now);
  }

  /** What a settlement leaves missing once the charge has replaced the reserved amounts. */
  function SettledGrant(s: Ledger, attemptId: string, charge: Charge): Grant
    requires attemptId in s.reservations
  {
    var r := s.reservations[attemptId];
    Grant(if r.authorizationId.Some? && r.authorizationId.value != "" then r.authorizationId.value else "durable-attempt-restore",
          attemptId, r.stage, SettleAuthorizedUsage,
          MissingInput(s, charge.input - r.input), MissingOutput(s, charge.output - r.output), r.restored)
  }

  /** A settlement widens the limits exactly when its usage is valid, something is missing, and the attempt was restored
      or had used an authorization; it does so by what is missing. */
  lemma SettlingGrantsExactly(s: Ledger, attemptId: string, callId: string, text: string, usage: RawUsage, now: int)
    requires attemptId in s.reservations
    ensures var r := s.reservations[attemptId];
            var t, g := Record(s, attemptId, callId, text, usage, now).ledger, SettledGrant(s, attemptId, ChargeFor(r, text, usage));
            var extended := && r.callId == callId && r.settlement.None? && now - s.startedAt <= s.limits.maxElapsed
                            && !Parse(usage).invalid && (g.input > 0 || g.output > 0)
                            && (r.restored || (r.authorizationId.Some? && r.authorizationId.value != ""));
            && t.authorizations == s.authorizations && t.activeId == s.activeId
            && (if extended then OneGrant(s, t, g) && MeetsLimits(s, t, g) else SameLimits(s, t))
  {
  }

  // ---------- Whole runs ----------

  /** The input total an operation asks for. */
  function AskedInput(s: Ledger, op: Operation): int {
    match op
    case DoAuthorize(_, _, _, _) => s.totalInput
    case DoReserve(request, _) => s.totalInput + request.input
    case DoEnsure(request, _) => s.totalInput + request.input
    case DoRestore(request, _) => s.totalInput + request.input
    case DoRecord(_, _, _, _, _) => Apply(s, op).ledger.totalInput
  }

  function AskedOutput(s: Ledger, op: Operation): int {
    var t := Apply(s, op).ledger;
    match op
    case DoAuthorize(_, _, _, _) => s.totalOutput + s.reservedOutput
    case DoReserve(request, _) => s.totalOutput + s.reservedOutput + request.output
    case DoEnsure(request, _) => s.totalOutput + s.reservedOutput + request.output
    case DoRestore(request, _) => s.totalOutput + s.reservedOutput + request.output
    case DoRecord(_, _, _, _, _) => t.totalOutput + t.reservedOutput
  }

  /** The most that was asked for, and at least `least`. */
  function PeakInput(s: Ledger, ops: seq<Operation>, least: int): int
    decreases |ops|
  {
    if ops == [] then least else PeakInput(Apply(s, ops[0]).ledger, ops[1..], Max(least, AskedInput(s, ops[0])))
  }

  function PeakOutput(s: Ledger, ops: seq<Operation>, least: int): int
    decreases |ops|
  {
    if ops == [] then least else PeakOutput(Apply(s, ops[0]).ledger, ops[1..], Max(least, AskedOutput(s, ops[0])))
  }

  lemma StepWidensNoFurther(s: Ledger, op: Operation)
    ensures var t := Apply(s, op).ledger;
            && t.limits == s.limits && t.elasticInput >= s.elasticInput && t.elasticOutput >= s.elasticOutput
            && t.limits.maxInput + t.elasticInput <= Max(s.limits.maxInput + s.elasticInput, AskedInput(s, op))
            && t.limits.maxOutput + t.elasticOutput <= Max(s.limits.maxOutput + s.elasticOutput, AskedOutput(s, op))
  {
    match op
    case DoAuthorize(_, _, _, _) =>
    case DoReserve(request, now) => ReservationGrantsExactly(s, request, now);
    case DoEnsure(request, now) => ReservationGrantsExactly(s, request, now);
    case DoRestore(request, now) =>
      if request.attemptId !in s.reservations { RestoringGrantsExactly(s, request, now); }
    case DoRecord(attemptId, callId, text, usage, now) =>
      if attemptId in s.reservations { SettlingGrantsExactly(s, attemptId, callId, text, usage, now); }
  }

  /** However a run widens its limits, they never go beyond the base limits or the most the run asked for at once. */
  lemma {:induction false} LimitsFollowDemand(s: Ledger, ops: seq<Operation>, input: int, output: int)
    requires s.limits.maxInput + s.elasticInput <= input && s.limits.maxOutput + s.elasticOutput <= output
    ensures var t := Run(s, ops);
            && t.limits == s.limits && t.elasticInput >= s.elasticInput && t.elasticOutput >= s.elasticOutput
            && t.limits.maxInput + t.elasticInput <= PeakInput(s, ops, input)
            && t.limits.maxOutput + t.elasticOutput <= PeakOutput(s, ops, output)
    decreases |ops|
  {
    if ops == [] {
    } else {
      StepWidensNoFurther(s, ops[0]);
      LimitsFollowDemand(Apply(s, ops[0]).ledger, ops[1..], Max(input, AskedInput(s, ops[0])), Max(output, AskedOutput(s, ops[0])));
    }
  }
}
