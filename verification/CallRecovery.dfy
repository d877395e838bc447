/** When a process that died can be restarted from its evidence, and a run after which it never can. */
module CallRecovery {
  import opened Common
  import opened AttemptIds
  import opened ModelCalls
  import opened RunBudget
  import opened RunBudgetAuthority
  import CallProtocol
  import opened CallRuntime
  import opened Hydration
  import opened CallSessions

  // ---------- What a crash leaves charged ----------

  lemma ChargedWith(store: Store, next: Store, a: string)
    requires a !in store.intents && a in next.intents && SameElsewhere(store, next, a)
    ensures ChargedAttempts(next) == ChargedAttempts(store) + if Uncharged(next, a) then {} else {a}
  {
    forall b | b != a ensures b in ChargedAttempts(next) <==> b in ChargedAttempts(store) {
      ElsewhereUnchanged(store, next, a, b);
    }
  }

  /** A cut-off attempt without a receipt is charged. */
  lemma ChargedAfterCut(store: Store, ledger: Ledger, e: Execution, reach: Reach)
    requires Intact(store) && !reach.Complete? && AttemptName(e.call.callId, e.attempt) !in store.intents
    ensures ChargedAttempts(CutStore(store, ledger, e, reach))
         == ChargedAttempts(store) + {AttemptName(e.call.callId, e.attempt)}
  {
    var intent := IntentFor(e.call, e.attempt, e.now);
    ClaimedElsewhere(store, intent);
    StoredElsewhere(store, intent, CallProtocol.RejectedResponse(e.call));
    if ClosingOf(e.call, e.reply).Some? {
      StoredElsewhere(store, intent, ClosingOf(e.call, e.reply).value.response);
    }
    ChargedWith(store, CutStore(store, ledger, e, reach), intent.attemptId);
  }

  /** A complete attempt is charged only if its reservation was accepted. */
  lemma ChargedAfterComplete(store: Store, ledger: Ledger, e: Execution)
    requires Intact(store) && AttemptName(e.call.callId, e.attempt) !in store.intents
    ensures var a, cut := AttemptName(e.call.callId, e.attempt), CutStore(store, ledger, e, Complete);
            || ChargedAttempts(cut) == ChargedAttempts(store)
            || (&& ChargedAttempts(cut) == ChargedAttempts(store) + {a}
                && Ensure(ledger, RequestOf(IntentFor(e.call, e.attempt, e.now)), e.now).outcome.Done?)
  {
    var intent := IntentFor(e.call, e.attempt, e.now);
    var step := Ensure(ledger, RequestOf(intent), e.now);
    var cut := CutStore(store, ledger, e, Complete);
    if step.outcome.Refused? {
      PublishFresh(store, intent, CallProtocol.RejectedResponse(e.call), BudgetRejected, e.done);
      ClosedElsewhere(store, intent, CallProtocol.RejectedResponse(e.call), BudgetRejected, e.done);
    } else if ClosingOf(e.call, e.reply).None? {
      ClaimedElsewhere(store, intent);
    } else {
      var closing := ClosingOf(e.call, e.reply).value;
      ClosingPublishesAndSettles(store, step.ledger, intent, closing, e.reply, e.done);
      ClosedElsewhere(store, intent, closing.response, closing.status, e.done);
    }
    ChargedWith(store, cut, intent.attemptId);
  }

  /** The live tracker has charged whatever the evidence charges. */
  lemma ChargedWithinCalls(store: Store, ledger: Ledger)
    requires InStep(store, ledger)
    ensures |ChargedAttempts(store)| <= ledger.calls
    ensures ChargedAttempts(store) != {} ==> ledger.calls <= ledger.limits.maxCalls
  {
    SubsetSize(ChargedAttempts(store), ledger.reservations.Keys);
    assert |ledger.reservations| == |ledger.reservations.Keys|;
  }

  lemma NewReservationHasRoom(store: Store, ledger: Ledger, e: Execution)
    requires InStep(store, ledger) && AttemptName(e.call.callId, e.attempt) !in store.intents
    requires Ensure(ledger, RequestOf(IntentFor(e.call, e.attempt, e.now)), e.now).outcome.Done?
    ensures |ChargedAttempts(store)| < ledger.limits.maxCalls
  {
    var a := AttemptName(e.call.callId, e.attempt);
    ChargedWithinCalls(store, ledger);
    assert a in ledger.reservations ==> EntryMirrors(store, a, ledger.reservations[a]);
    ReservationAcceptedExactly(ledger, RequestOf(IntentFor(e.call, e.attempt, e.now)), e.now);
  }

  /** What the crash left charged is within the calls exactly when the attempt was on record, or closed, or a call was
      left for it. */
  lemma ChargedFitsExactly(store: Store, ledger: Ledger, e: Execution, reach: Reach)
    requires InStep(store, ledger) && ChargedAttempts(CutStore(store, ledger, e, reach)) != {}
    ensures |ChargedAttempts(CutStore(store, ledger, e, reach))| <= ledger.limits.maxCalls
            <==> AttemptName(e.call.callId, e.attempt) in store.intents || reach.Complete?
                 || |ChargedAttempts(store)| < ledger.limits.maxCalls
  {
    var a := AttemptName(e.call.callId, e.attempt);
    ChargedWithinCalls(store, ledger);
    if a !in store.intents {
      assert a !in ChargedAttempts(store);
      if reach.Complete? {
        ChargedAfterComplete(store, ledger, e);
        if ChargedAttempts(CutStore(store, ledger, e, reach)) != ChargedAttempts(store) {
          NewReservationHasRoom(store, ledger, e);
        }
      } else {
        ChargedAfterCut(store, ledger, e, reach);
      }
    }
  }

  /** Whatever the session so far, and wherever the process dies: a restart from its evidence runs through exactly when
      nothing is charged, or the restart is in time, the cost limit is not negative, the charged attempts have their ids
      and valid usages, and the attempt was on record before, or its receipt is written, or a call was left for it. */
  lemma CrashRecoveredExactly(store: Store, ledger: Ledger, e: Execution, reach: Reach, restartedAt: int,
                              order: seq<string>, now: int)
    requires InStep(store, ledger) && forall a | a in CutStore(store, ledger, e, reach).intents :: a in order
    ensures var cut := CutStore(store, ledger, e, reach);
            var charged := ChargedAttempts(cut);
            Hydrate(cut, Fresh(ledger.limits, restartedAt), order, now).failure.None?
            <==> charged == {}
                 || (&& now - restartedAt <= ledger.limits.maxElapsed && CostAllowsNothingMore(ledger.limits)
                     && AllRestorable(cut, charged)
                     && (AttemptName(e.call.callId, e.attempt) in store.intents || reach.Complete?
                         || |ChargedAttempts(store)| < ledger.limits.maxCalls))
  {
    CutIntact(store, ledger, e, reach);
    HydrationRunsExactly(CutStore(store, ledger, e, reach), ledger.limits, restartedAt, order, now);
    if ChargedAttempts(CutStore(store, ledger, e, reach)) != {} {
      ChargedFitsExactly(store, ledger, e, reach);
    }
  }

  // ---------- Down for good ----------

  /** Evidence of more attempts than the calls allow keeps the process down, whatever is tried later. */
  lemma {:induction false} StaysDown(limits: Limits, store: Store, later: seq<SessionEvent>)
    requires Intact(store) && |ChargedAttempts(store)| > limits.maxCalls && ChargedAttempts(store) != {} && ListsAll(later)
    ensures RunSession(limits, Down(store), later) == Down(store)
    decreases |later|
  {
    if later == [] {
    } else {
      assert later[0] in later;
      if later[0].Restart? {
        HydrationRunsExactly(store, limits, later[0].startedAt, later[0].listing(store.intents.Keys), later[0].now);
      }
      assert forall event | event in later[1..] :: event in later;
      StaysDown(limits, store, later[1..]);
    }
  }

  /** A process that has used up its calls dies after claiming another attempt and before its rejection is recorded:
      no restart ever brings it back. */
  lemma DiesForGood(limits: Limits, store: Store, ledger: Ledger, e: Execution, later: seq<SessionEvent>)
    requires Intact(store) && |ChargedAttempts(store)| >= limits.maxCalls && ListsAll(later)
    requires AttemptName(e.call.callId, e.attempt) !in store.intents
    ensures var cut := CutStore(store, ledger, e, IntentOnly);
            RunSession(limits, Running(store, ledger), [Crash(e, IntentOnly)] + later) == Down(cut)
  {
    var cut := CutStore(store, ledger, e, IntentOnly);
    ChargedAfterCut(store, ledger, e, IntentOnly);
    assert AttemptName(e.call.callId, e.attempt) !in ChargedAttempts(store);
    ClaimedIntact(store, IntentFor(e.call, e.attempt, e.now));
    StaysDown(limits, cut, later);
    assert ([Crash(e, IntentOnly)] + later)[1..] == later;
  }

  // ---------- A session that uses up its calls ----------

  /** The `k`-th logical call of the session, without tokens; the provider fails without telling how far it got. */
  function IdleCall(k: nat, now: int): Execution {
    Execution(Call(Decimal(k), "provider", "model", "stage", "chat", "request", 0, Some(0), 0), 1,
              Failed(None, false, false, false), now, now)
  }

  function NameOf(k: nat): string {
    AttemptName(Decimal(k), 1)
  }

  /** `k` such calls, one after the other. */
  function IdleCalls(k: nat, now: int): seq<SessionEvent> {
    if k == 0 then [] else IdleCalls(k - 1, now) + [Execute(IdleCall(k - 1, now))]
  }

  predicate GenerousLimits(limits: Limits) {
    limits.maxInput >= 0 && limits.maxOutput >= 0 && limits.maxElapsed >= 0 && CostAllowsNothingMore(limits)
  }

  /** After `k` idle calls: nothing but their intents, and a tracker that counts them. */
  ghost predicate Idled(limits: Limits, p: Process, k: nat, now: int) {
    && p.Running? && p.store.artifacts == map[] && p.store.receipts == map[]
    && |p.store.intents| == k == p.ledger.calls && p.ledger.limits == limits && p.ledger.startedAt == now
    && p.ledger.totalInput == 0 && p.ledger.totalOutput == 0 && p.ledger.reservedOutput == 0 && p.ledger.cost == 0.0
    && p.ledger.elasticInput == 0 && p.ledger.elasticOutput == 0
    && p.ledger.reservations.Keys == p.store.intents.Keys
    && (forall a | a in p.store.intents :: p.store.intents[a].attemptId == a && p.store.intents[a].callId != "" && a != "")
    && (forall j: nat | j >= k :: NameOf(j) !in p.store.intents)
  }

  lemma NamesDiffer(j: nat, k: nat)
    requires j != k
    ensures NameOf(j) != NameOf(k)
  {
    if NameOf(j) == NameOf(k) {
      AttemptNameInjective(Decimal(j), 1, Decimal(k), 1);
      DecimalInjective(j, k);
    }
  }

  /** A request without tokens is accepted while a call is left. */
  lemma IdleReserved(ledger: Ledger, r: Request, now: int)
    requires GenerousLimits(ledger.limits) && ledger.calls < ledger.limits.maxCalls && ledger.startedAt == now
    requires ledger.totalInput == 0 && ledger.totalOutput == 0 && ledger.reservedOutput == 0 && ledger.cost == 0.0
    requires ledger.elasticInput == 0 && ledger.elasticOutput == 0
    requires r.attemptId !in ledger.reservations && r.attemptId != "" && r.callId != ""
    requires r.input == 0 && r.output == 0 && r.cost == 0.0
    ensures Ensure(ledger, r, now) == RunBudget.Step(Commit(ledger, r, None), Done(true))
  {
  }

  lemma IdlesOnceMore(limits: Limits, p: Process, k: nat, now: int)
    requires GenerousLimits(limits) && Idled(limits, p, k, now) && k < limits.maxCalls
    ensures Idled(limits, CallSessions.Step(limits, p, Execute(IdleCall(k, now))), k + 1, now)
  {
    var e := IdleCall(k, now);
    DecimalHasOnlyDigits(k);
    assert |NameOf(k)| > 0;
    forall j: nat | j >= k + 1 ensures NameOf(j) != NameOf(k) {
      NamesDiffer(j, k);
    }
    assert ClosingOf(e.call, e.reply).None?;
    IdleReserved(p.ledger, RequestOf(IntentFor(e.call, 1, now)), now);
  }

  lemma {:induction false} RunsOn(limits: Limits, p: Process, before: seq<SessionEvent>, after: seq<SessionEvent>)
    ensures RunSession(limits, p, before + after) == RunSession(limits, RunSession(limits, p, before), after)
    decreases |before|
  {
    if before == [] {
      assert before + after == after;
    } else {
      assert (before + after)[1..] == before[1..] + after;
      RunsOn(limits, CallSessions.Step(limits, p, before[0]), before[1..], after);
    }
  }

  lemma {:induction false} IdlesUpTo(limits: Limits, k: nat, now: int)
    requires GenerousLimits(limits) && k <= limits.maxCalls
    ensures Idled(limits, RunSession(limits, Running(EMPTY_STORE, Fresh(limits, now)), IdleCalls(k, now)), k, now)
  {
    if k == 0 {
    } else {
      IdlesUpTo(limits, k - 1, now);
      var p := Running(EMPTY_STORE, Fresh(limits, now));
      RunsOn(limits, p, IdleCalls(k - 1, now), [Execute(IdleCall(k - 1, now))]);
      IdlesOnceMore(limits, RunSession(limits, p, IdleCalls(k - 1, now)), k - 1, now);
    }
  }

  lemma IdledIsCharged(limits: Limits, p: Process, k: nat, now: int)
    requires Idled(limits, p, k, now)
    ensures Intact(p.store) && ChargedAttempts(p.store) == p.store.intents.Keys && |ChargedAttempts(p.store)| == k
    ensures AllRestorable(p.store, ChargedAttempts(p.store))
  {
    assert ChargedAttempts(p.store) == p.store.intents.Keys;
  }

  /** All calls are used up, and the process dies right after claiming one more attempt. */
  function FatalRun(limits: Limits, now: int): seq<SessionEvent> {
    var n: nat := Max(0, limits.maxCalls);
    IdleCalls(n, now) + [Crash(IdleCall(n, now), IntentOnly)]
  }

  /** The evidence of `n` idle calls and one more intent. */
  lemma OneTooMany(limits: Limits, p: Process, n: nat, now: int)
    requires Idled(limits, p, n, now)
    ensures var store := CutStore(p.store, p.ledger, IdleCall(n, now), IntentOnly);
            Intact(store) && |ChargedAttempts(store)| == n + 1 && AllRestorable(store, ChargedAttempts(store))
  {
    var e := IdleCall(n, now);
    IdledIsCharged(limits, p, n, now);
    assert NameOf(n) !in p.store.intents;
    ChargedAfterCut(p.store, p.ledger, e, IntentOnly);
    ClaimedIntact(p.store, IntentFor(e.call, e.attempt, e.now));
    DecimalHasOnlyDigits(n);
  }

  lemma FatalRunEnds(limits: Limits, now: int, later: seq<SessionEvent>) returns (store: Store)
    requires GenerousLimits(limits) && limits.maxCalls >= 0 && ListsAll(later)
    ensures RunSession(limits, Running(EMPTY_STORE, Fresh(limits, now)), FatalRun(limits, now) + later) == Down(store)
    ensures Intact(store) && |ChargedAttempts(store)| == limits.maxCalls + 1 && AllRestorable(store, ChargedAttempts(store))
  {
    var start, n := Running(EMPTY_STORE, Fresh(limits, now)), limits.maxCalls;
    IdlesUpTo(limits, n, now);
    var p, e := RunSession(limits, start, IdleCalls(n, now)), IdleCall(n, now);
    IdledIsCharged(limits, p, n, now);
    assert NameOf(n) !in p.store.intents;
    DiesForGood(limits, p.store, p.ledger, e, later);
    RunsOn(limits, start, IdleCalls(n, now), [Crash(e, IntentOnly)] + later);
    assert FatalRun(limits, now) + later == IdleCalls(n, now) + ([Crash(e, IntentOnly)] + later);
    OneTooMany(limits, p, n, now);
    store := CutStore(p.store, p.ledger, e, IntentOnly);
  }

  /** Under any limits that allow idle calls at all there is such a run. The evidence it leaves is intact, and still the
      process stays down whatever follows: every restart in time is refused for calls. */
  lemma CallLimitCanStopForGood(limits: Limits, now: int, later: seq<SessionEvent>, restartedAt: int, order: seq<string>,
                                t: int)
    requires GenerousLimits(limits) && limits.maxCalls >= 0 && ListsAll(later)
    ensures var p := RunSession(limits, Running(EMPTY_STORE, Fresh(limits, now)), FatalRun(limits, now) + later);
            && p.Down? && Intact(p.store)
            && (t - restartedAt <= limits.maxElapsed && (forall a | a in p.store.intents :: a in order) ==>
                  Hydrate(p.store, Fresh(limits, restartedAt), order, t).failure == Some(OverBudget(CallsExceeded)))
  {
    var store := FatalRunEnds(limits, now, later);
    if t - restartedAt <= limits.maxElapsed && forall a | a in store.intents :: a in order {
      HydrationStopsForCalls(store, limits, restartedAt, order, t);
    }
  }
}
