/** Which answer the tracker gives, over its totals and limits, and what authorizing changes. */
module RunBudgetAnswers {
  import opened Common
  import opened TokenUsage
  import opened RunBudget
  import opened RunBudgetGrants

  // ---------- Reserving ----------

  predicate WellFormed(r: Request) {
    r.input >= 0 && r.output >= 0 && r.callId != "" && r.attemptId != ""
  }

  /** The input, or the output, that is missing cannot be had. */
  predicate LacksInput(s: Ledger, r: Request) {
    MissingInput(s, r.input) > 0 && !Usable(s, r.stage)
  }

  predicate LacksOutput(s: Ledger, r: Request) {
    MissingOutput(s, r.output) > 0 && !Usable(s, r.stage)
  }

  predicate LacksMoney(s: Ledger, cost: real) {
    s.limits.maxCost.Some? && s.cost + cost > s.limits.maxCost.value
  }

  /** The first of these that is true of a reservation is the reason for which it is refused: the time is over, the request
      is malformed, the attempt is in the table, no call is left, input, output or money is lacking. */
  predicate RefusedFor(s: Ledger, r: Request, now: int, code: ErrorCode) {
    var late, known, exhausted := now - s.startedAt > s.limits.maxElapsed, r.attemptId in s.reservations, s.calls >= s.limits.maxCalls;
    match code
    case ElapsedExceeded => late
    case UsageInvalid => !late && !WellFormed(r)
    case AttemptConflict => !late && WellFormed(r) && known
    case CallsExceeded => !late && WellFormed(r) && !known && exhausted
    case InputExceeded => !late && WellFormed(r) && !known && !exhausted && LacksInput(s, r)
    case OutputExceeded => !late && WellFormed(r) && !known && !exhausted && !LacksInput(s, r) && LacksOutput(s, r)
    case CostExceeded =>
      !late && WellFormed(r) && !known && !exhausted && !LacksInput(s, r) && !LacksOutput(s, r) && LacksMoney(s, r.cost)
    case _ => false
  }

  lemma ReservationAnswersExactly(s: Ledger, r: Request, now: int, code: ErrorCode)
    ensures Reserve(s, r, now).outcome == Refused(code) <==> RefusedFor(s, r, now, code)
    ensures Reserve(s, r, now).outcome.Done? ==> Reserve(s, r, now).outcome == Done(true)
  {
  }

  /** An attempt in the table is confirmed if it is asked for with the same call and amounts, and is a conflict otherwise;
      nothing changes. Any other well-formed one is reserved. */
  lemma EnsuringAnswersExactly(s: Ledger, r: Request, now: int)
    ensures !WellFormed(r) ==> Ensure(s, r, now) == Step(s, Refused(UsageInvalid))
    ensures WellFormed(r) && r.attemptId in s.reservations ==>
              var known := s.reservations[r.attemptId];
              Ensure(s, r, now)
              == Step(s, if known.callId == r.callId && known.input == r.input && known.output == r.output then Done(false)
                         else Refused(AttemptConflict))
    ensures WellFormed(r) && r.attemptId !in s.reservations ==> Ensure(s, r, now) == Reserve(s, r, now)
  {
  }

  /** Restoring never lacks tokens and asks for no money, but a cost limit already passed refuses it. */
  lemma RestoringAnswersExactly(s: Ledger, r: Request, now: int, code: ErrorCode)
    ensures r.attemptId !in s.reservations ==>
              var late, exhausted := now - s.startedAt > s.limits.maxElapsed, s.calls >= s.limits.maxCalls;
              && (Restore(s, r, now).outcome == Refused(code) <==>
                    || (code == ElapsedExceeded && late) || (code == UsageInvalid && !late && !WellFormed(r))
                    || (code == CallsExceeded && !late && WellFormed(r) && exhausted)
                    || (code == CostExceeded && !late && WellFormed(r) && !exhausted && LacksMoney(s, 0.0)))
              && (Restore(s, r, now).outcome.Done? ==> Restore(s, r, now).outcome == Done(true))
    ensures r.attemptId in s.reservations ==> Restore(s, r, now) == Ensure(s, r.(cost := 0.0), now)
  {
    if r.attemptId !in s.reservations {
      ReservationAnswersExactly(RestoreGrant(s, r), r.(cost := 0.0), now, code);
    }
  }

  /** The older output record asks for time, a proper amount, settled output within the base limit, and money. */
  lemma RecordingOutputAnswersExactly(s: Ledger, output: int, cost: real, now: int)
    ensures var step, late := RecordOutput(s, output, cost, now), now - s.startedAt > s.limits.maxElapsed;
            var over := s.totalOutput + output > s.limits.maxOutput;
            && (step.outcome == Refused(ElapsedExceeded) <==> late)
            && (step.outcome == Refused(UsageInvalid) <==> !late && output < 0)
            && (step.outcome == Refused(OutputExceeded) <==> !late && output >= 0 && over)
            && (step.outcome == Refused(CostExceeded) <==> !late && output >= 0 && !over && LacksMoney(s, cost))
            && (step.outcome.Refused? ==> step.ledger == s)
            && (step.outcome.Done? ==> step.ledger == s.(totalOutput := s.totalOutput + output, cost := s.cost + cost))
  {
  }

  // ---------- Authorizing ----------

  /** Where a stage is named first, or the number of all if it is not named. */
  function FirstAt(stages: seq<string>, stage: string): nat {
    if stages == [] || stages[0] == stage then 0 else 1 + FirstAt(stages[1..], stage)
  }

  /** The non-empty stages, each once, in the order in which they are first named. */
  ghost predicate FirstNamed(listed: seq<string>, stages: seq<string>) {
    && (forall stage :: stage in listed <==> stage in stages && stage != "")
    && forall p, q | 0 <= p < q < |listed| :: FirstAt(stages, listed[p]) < FirstAt(stages, listed[q])
  }

  lemma {:induction false} FirstAtSnoc(front: seq<string>, last: string, stage: string)
    ensures FirstAt(front, stage) <= |front| && (stage in front <==> FirstAt(front, stage) < |front|)
    ensures FirstAt(front + [last], stage)
         == if stage in front then FirstAt(front, stage) else if stage == last then |front| else |front| + 1
  {
    if front == [] {
    } else {
      assert (front + [last])[1..] == front[1..] + [last];
      FirstAtSnoc(front[1..], last, stage);
    }
  }

  lemma {:induction false} StagesFirstNamed(stages: seq<string>)
    ensures FirstNamed(NormalizeStages(stages), stages)
    decreases |stages|
  {
    if stages == [] {
    } else {
      var front, last := stages[..|stages| - 1], stages[|stages| - 1];
      var listed, before := NormalizeStages(stages), NormalizeStages(front);
      StagesFirstNamed(front);
      assert stages == front + [last];
      forall p, q | 0 <= p < q < |listed| ensures FirstAt(stages, listed[p]) < FirstAt(stages, listed[q]) {
        assert listed[p] in before;
        FirstAtSnoc(front, last, listed[p]);
        FirstAtSnoc(front, last, listed[q]);
        assert q < |before| ==> listed[q] in before;
      }
    }
  }

  /** An authorization needs a key, a reason and a stage, and must not contradict the one known under its key. It becomes the
      current one, the one before it is not active any more, and nothing else changes, limits least of all. */
  lemma AuthorizingAnswersExactly(s: Ledger, key: string, reason: string, evidence: string, stages: seq<string>, listed: seq<string>)
    requires FirstNamed(listed, stages)
    ensures var step := Authorize(s, key, reason, evidence, stages);
            var t, malformed := step.ledger, key == "" || reason == "" || forall stage | stage in stages :: stage == "";
            var contradicts := && key in s.authorizations
                               && !(s.authorizations[key].reason == reason && s.authorizations[key].evidence == evidence
                                    && s.authorizations[key].stages == listed);
            if malformed then step == Step(s, Refused(AuthorizationInvalid))
            else if contradicts then step == Step(s, Refused(AuthorizationConflict))
            else
              && step.outcome == Done(true) && t.activeId == Some(key) && key in t.authorizations
              && t == s.(authorizations := t.authorizations, activeId := t.activeId)
              && t.authorizations.Keys == s.authorizations.Keys + {key}
              && t.authorizations[key] == (if key in s.authorizations then s.authorizations[key]
                                           else Authorization(reason, evidence, listed, [], true))
              && (forall other | other in s.authorizations && other != key ::
                    t.authorizations[other] == if s.activeId == Some(other) then s.authorizations[other].(active := false)
                                               else s.authorizations[other])
  {
    StagesFirstNamed(stages);
    ListedOnce(listed, NormalizeStages(stages), stages);
    if listed == [] {
      forall stage | stage in stages ensures stage == "" {
        assert stage !in listed;
      }
    } else {
      assert listed[0] in listed;
    }
  }

  /** There is only one such list. */
  lemma ListedOnce(a: seq<string>, b: seq<string>, stages: seq<string>)
    requires FirstNamed(a, stages) && FirstNamed(b, stages)
    ensures a == b
  {
    SamePrefix(a, b, stages, |a|);
    SamePrefix(b, a, stages, |b|);
  }

  lemma PlacesAgree(listed: seq<string>, stages: seq<string>, p: nat, q: nat)
    requires FirstNamed(listed, stages) && p < |listed| && q < |listed|
    ensures p < q <==> FirstAt(stages, listed[p]) < FirstAt(stages, listed[q])
  {
  }

  lemma NextAgrees(a: seq<string>, b: seq<string>, stages: seq<string>, m: nat)
    requires FirstNamed(a, stages) && FirstNamed(b, stages) && m < |a| && m <= |b|
    requires forall k | 0 <= k < m :: a[k] == b[k]
    ensures m < |b| && a[m] == b[m]
  {
    assert a[m] in a && a[m] in b;
    var q :| 0 <= q < |b| && b[q] == a[m];
    PlacesAgree(a, stages, Min(q, m), m);
    assert b[m] in b && b[m] in a;
    var p :| 0 <= p < |a| && a[p] == b[m];
    PlacesAgree(b, stages, Min(p, m), m);
    PlacesAgree(b, stages, m, q);
    PlacesAgree(a, stages, m, p);
  }

  lemma {:induction false} SamePrefix(a: seq<string>, b: seq<string>, stages: seq<string>, n: nat)
    requires FirstNamed(a, stages) && FirstNamed(b, stages) && n <= |a|
    ensures n <= |b| && forall k | 0 <= k < n :: a[k] == b[k]
  {
    if n == 0 {
    } else {
      SamePrefix(a, b, stages, n - 1);
      NextAgrees(a, b, stages, n - 1);
    }
  }

  // ---------- Charging ----------

  /** The charge never exceeds what was reported, reserved or returned: each part of it is one of these figures. */
  lemma SettlementNeverOverstates(raw: RawUsage, reservedInput: nat, reservedOutput: nat, fallback: nat)
    ensures var u, c := Parse(raw), Settlement(Parse(raw), reservedInput, reservedOutput, fallback);
            && (c.input == reservedInput || u.input == Some(c.input) || u.total == Some(c.input))
            && (c.output == reservedOutput || c.output == fallback || u.output == Some(c.output) || u.total == Some(c.output)
                || c.output == 0)
  {
  }
}
