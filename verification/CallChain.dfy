/** One logical call across retries, concurrent executions and restarts. */
module CallChain {
  import opened Common
  import opened AttemptIds
  import opened ModelCalls
  import opened CallProtocol
  import opened CallSafety

  /** Every start of a call id uses that call's one set of arguments. */
  ghost predicate OneMeaning(events: seq<Event>, catalog: string -> Call) {
    forall e | e in events && e.Spawn? :: e.call == catalog(e.call.callId)
  }

  predicate ClosedNotSent(world: World, a: string) {
    a in world.store.receipts && world.store.receipts[a].status == NotSent
  }

  /** No conflict is ever taken for a transient failure. */
  ghost predicate ConflictsAreFinal(events: seq<Event>) {
    forall e | e in events && e.Act? :: !e.choice.textLooksTransient
  }

  // ---------- Attempts come one after the other ----------

  ghost predicate WorkerInOrder(world: World, w: Worker) {
    && (w.attempt >= 2 ==> ClosedNotSent(world, AttemptName(w.call.callId, w.attempt - 1)))
    && (w.pc.ClaimLost? ==> w.AttemptId() in world.store.intents)
  }

  /** An attempt is opened only after the one before it was closed as never sent. */
  ghost predicate InOrder(world: World) {
    && (forall id | id in world.workers :: WorkerInOrder(world, world.workers[id]))
    && (forall c, k: nat {:trigger AttemptName(c, k)} | k >= 2 && AttemptName(c, k) in world.store.intents ::
          ClosedNotSent(world, AttemptName(c, k - 1)))
  }

  /** A worker moves on to the next attempt only from an attempt closed as never sent. */
  lemma MovesOnAfterNotSent(store: Store, w: Worker, c: Choice)
    requires w.pc.Finished? && w.pc.outcome.ConflictRaised? ==> !c.textLooksTransient
    ensures var v := Advance(store, w, c).1;
            && v.call == w.call
            && (v.attempt == w.attempt
                || (v.attempt == w.attempt + 1 && w.pc.Finished? && w.pc.outcome.NotSentRaised?))
            && (v.pc.ClaimLost? ==> w.pc.Claim? && w.AttemptId() in store.intents && v.attempt == w.attempt)
  {
    match w.pc
    case StoreRejectedArtifact(_) =>
    case StoreRejectedReceipt(_) =>
    case StoreArtifact(_) =>
    case StoreReceipt(_) =>
    case Settle(_) =>
    case _ =>
  }

  lemma ActorInOrder(world: World, id: nat, choice: Choice)
    requires Safe(world) && InOrder(world) && id in world.workers
    requires var pc := world.workers[id].pc; pc.Finished? && pc.outcome.ConflictRaised? ==> !choice.textLooksTransient
    ensures WorkerInOrder(Next(world, Act(id, choice)), Next(world, Act(id, choice)).workers[id])
  {
    var w := world.workers[id];
    assert WorkerOk(world, w) && WorkerInOrder(world, w) && AttemptOk(world, w.AttemptId());
    ActFrame(world, id, choice);
    MovesOnAfterNotSent(world.store, w, choice);
  }

  /** An intent that appears is that of the worker that claims. */
  lemma NewIntent(world: World, id: nat, choice: Choice, c: string, k: nat)
    requires Safe(world) && id in world.workers && AttemptName(c, k) !in world.store.intents
    requires AttemptName(c, k) in Next(world, Act(id, choice)).store.intents
    ensures var w := world.workers[id]; w.pc.Claim? && c == w.call.callId && k == w.attempt
  {
    var w := world.workers[id];
    var next := Next(world, Act(id, choice));
    ActFrame(world, id, choice);
    assert WorkerOk(world, w);
    assert Holds(w) ==> w.AttemptId() in world.store.intents;
    assert AttemptName(c, k) == w.AttemptId() || AttemptName(c, k) in next.store.intents - {w.AttemptId()};
    AttemptNameInjective(c, k, w.call.callId, w.attempt);
  }

  lemma IntentInOrder(world: World, id: nat, choice: Choice, c: string, k: nat)
    requires Safe(world) && InOrder(world) && id in world.workers
    requires k >= 2 && AttemptName(c, k) in Next(world, Act(id, choice)).store.intents
    ensures ClosedNotSent(Next(world, Act(id, choice)), AttemptName(c, k - 1))
  {
    AdvanceGrows(world.store, world.workers[id], choice);
    assert WorkerInOrder(world, world.workers[id]);
    if AttemptName(c, k) !in world.store.intents {
      NewIntent(world, id, choice, c, k);
    }
  }

  /** Whatever the event's worker meets is not a conflict that it takes for transient. */
  predicate NoTransientConflict(world: World, e: Event) {
    e.Act? && e.id in world.workers ==>
      var pc := world.workers[e.id].pc; pc.Finished? && pc.outcome.ConflictRaised? ==> !e.choice.textLooksTransient
  }

  lemma WorkersInOrder(world: World, e: Event, id: nat)
    requires Safe(world) && InOrder(world) && NoTransientConflict(world, e) && id in Next(world, e).workers
    ensures WorkerInOrder(Next(world, e), Next(world, e).workers[id])
  {
    StepSafe(world, e);
    if e.Act? && e.id == id {
      ActorInOrder(world, id, e.choice);
    } else if id in world.workers {
      assert WorkerInOrder(world, world.workers[id]);
    }
  }

  lemma StepInOrder(world: World, e: Event)
    requires Safe(world) && InOrder(world) && NoTransientConflict(world, e)
    ensures InOrder(Next(world, e))
  {
    var next := Next(world, e);
    forall id | id in next.workers ensures WorkerInOrder(next, next.workers[id]) {
      WorkersInOrder(world, e, id);
    }
    forall c, k: nat {:trigger AttemptName(c, k)} | k >= 2 && AttemptName(c, k) in next.store.intents
      ensures ClosedNotSent(next, AttemptName(c, k - 1))
    {
      if e.Act? && e.id in world.workers {
        IntentInOrder(world, e.id, e.choice, c, k);
      }
    }
  }

  // ---------- One meaning per call id leaves no conflict ----------

  ghost predicate WorkerAgrees(world: World, w: Worker, catalog: string -> Call) {
    && w.call == catalog(w.call.callId)
    && (w.pc.ClaimLost? ==> w.AttemptId() in world.store.intents)
    && (w.pc.Finished? ==> !w.pc.outcome.ConflictRaised?)
  }

  ghost predicate Agrees(world: World, catalog: string -> Call) {
    && (forall id | id in world.workers :: WorkerAgrees(world, world.workers[id], catalog))
    && (forall c, k: nat {:trigger AttemptName(c, k)} | AttemptName(c, k) in world.store.intents ::
          Expected(world.store.intents[AttemptName(c, k)], catalog(c), k))
  }

  /** With the arguments the intent was written with, no step reports a conflict. */
  lemma NoConflict(world: World, w: Worker, choice: Choice)
    requires WorkerOk(world, w) && AttemptOk(world, w.AttemptId())
    requires w.AttemptId() in world.store.intents ==> Expected(world.store.intents[w.AttemptId()], w.call, w.attempt)
    requires w.pc.ClaimLost? ==> w.AttemptId() in world.store.intents
    requires w.pc.Finished? ==> !w.pc.outcome.ConflictRaised?
    ensures var v := Advance(world.store, w, choice).1; v.pc.Finished? ==> !v.pc.outcome.ConflictRaised?
  {
    match w.pc
    case StoreRejectedArtifact(_) => assert HolderOk(world, w);
    case StoreRejectedReceipt(_) => assert HolderOk(world, w);
    case StoreArtifact(_) =>
    case StoreReceipt(_) =>
    case Settle(_) =>
    case Finished(_) =>
    case _ =>
  }

  lemma ActorAgrees(world: World, id: nat, choice: Choice, catalog: string -> Call)
    requires Safe(world) && Agrees(world, catalog) && id in world.workers
    ensures WorkerAgrees(Next(world, Act(id, choice)), Next(world, Act(id, choice)).workers[id], catalog)
  {
    var w := world.workers[id];
    assert WorkerOk(world, w) && WorkerAgrees(world, w, catalog) && AttemptOk(world, w.AttemptId());
    ActFrame(world, id, choice);
    NoConflict(world, w, choice);
    MovesOnAfterNotSent(world.store, w, choice);
  }

  lemma IntentAgrees(world: World, id: nat, choice: Choice, catalog: string -> Call, c: string, k: nat)
    requires Safe(world) && Agrees(world, catalog) && id in world.workers
    requires AttemptName(c, k) in Next(world, Act(id, choice)).store.intents
    ensures Expected(Next(world, Act(id, choice)).store.intents[AttemptName(c, k)], catalog(c), k)
  {
    AdvanceGrows(world.store, world.workers[id], choice);
    assert WorkerAgrees(world, world.workers[id], catalog);
    if AttemptName(c, k) !in world.store.intents {
      NewIntent(world, id, choice, c, k);
    }
  }

  lemma StepAgrees(world: World, e: Event, catalog: string -> Call)
    requires Safe(world) && Agrees(world, catalog) && (e.Spawn? ==> e.call == catalog(e.call.callId))
    ensures Agrees(Next(world, e), catalog)
  {
    var next := Next(world, e);
    StepSafe(world, e);
    forall id | id in next.workers ensures WorkerAgrees(next, next.workers[id], catalog) {
      if e.Act? && e.id == id {
        ActorAgrees(world, id, e.choice, catalog);
      } else if id in world.workers {
        assert WorkerAgrees(world, world.workers[id], catalog);
      }
    }
    forall c, k: nat {:trigger AttemptName(c, k)} | AttemptName(c, k) in next.store.intents
      ensures Expected(next.store.intents[AttemptName(c, k)], catalog(c), k)
    {
      if e.Act? && e.id in world.workers {
        IntentAgrees(world, e.id, e.choice, catalog, c, k);
      }
    }
  }

  // ---------- Whole runs ----------

  lemma {:induction false} EveryRunAgrees(world: World, events: seq<Event>, catalog: string -> Call)
    requires Safe(world) && InOrder(world) && Agrees(world, catalog) && OneMeaning(events, catalog)
    ensures InOrder(Execute(world, events))
    decreases |events|
  {
    if events == [] {
    } else {
      var e := events[0];
      assert e in events;
      assert e.Act? && e.id in world.workers ==> WorkerAgrees(world, world.workers[e.id], catalog);
      StepInOrder(world, e);
      StepAgrees(world, e, catalog);
      StepSafe(world, e);
      EveryRunAgrees(Next(world, e), events[1..], catalog);
    }
  }

  lemma {:induction false} EveryRunInOrder(world: World, events: seq<Event>)
    requires Safe(world) && InOrder(world) && ConflictsAreFinal(events)
    ensures InOrder(Execute(world, events))
    decreases |events|
  {
    if events == [] {
    } else {
      assert events[0] in events;
      StepInOrder(world, events[0]);
      StepSafe(world, events[0]);
      EveryRunInOrder(Next(world, events[0]), events[1..]);
    }
  }

  lemma {:induction false} EarlierAttemptsNotSent(world: World, c: string, j: nat, k: nat)
    requires Safe(world) && InOrder(world)
    requires 1 <= j < k && AttemptName(c, k) in world.store.intents
    ensures ClosedNotSent(world, AttemptName(c, j))
    decreases k - j
  {
    assert ClosedNotSent(world, AttemptName(c, k - 1));
    assert AttemptOk(world, AttemptName(c, k - 1));
    if j == k - 1 {
    } else {
      EarlierAttemptsNotSent(world, c, j, k - 1);
    }
  }

  /** For one logical call, across retries, restarts and concurrent executions: once an attempt has been opened, every
      earlier attempt was closed as never sent, so of all its attempts at most one can have reached the provider. This
      needs that a call id always comes with the same arguments, or else that a conflict is not taken for transient. */
  lemma AtMostOneAttemptReaches(events: seq<Event>, catalog: string -> Call, c: string, j: nat, k: nat)
    requires OneMeaning(events, catalog) || ConflictsAreFinal(events)
    requires 1 <= j < k
    requires AttemptName(c, k) in Execute(INITIAL, events).store.intents
    ensures var world := Execute(INITIAL, events); var a := AttemptName(c, j);
            && ClosedNotSent(world, a)
            && Runs(world, a) == 1 && a in world.replies
            && !MayHaveReached(world.replies[a])
  {
    var world := Execute(INITIAL, events);
    EveryRunSafe(INITIAL, events);
    if OneMeaning(events, catalog) {
      EveryRunAgrees(INITIAL, events, catalog);
    } else {
      EveryRunInOrder(INITIAL, events);
    }
    EarlierAttemptsNotSent(world, c, j, k);
    AtMostOneInvocationPerAttempt(events, AttemptName(c, j));
  }

  // ---------- A conflict taken for transient ----------

  /** The provider leaves no trace of whether it was reached. */
  function Lost(textLooksTransient: bool): Choice {
    Choice(None, None, Failed(None, false, false, false), 0, true, textLooksTransient)
  }

  lemma TwoActs(world: World, id: nat, choice: Choice)
    ensures Execute(world, [Act(id, choice), Act(id, choice)]) == Next(Next(world, Act(id, choice)), Act(id, choice))
  {
    var next := Next(world, Act(id, choice));
    assert [Act(id, choice), Act(id, choice)][1..] == [Act(id, choice)];
    assert Execute(next, [Act(id, choice)]) == Execute(Next(next, Act(id, choice)), []);
  }

  lemma OneMore(world: World, events: seq<Event>, e: Event)
    ensures Execute(world, events + [e]) == Next(Execute(world, events), e)
  {
    ExecuteAppend(world, events, [e]);
    var m := Execute(world, events);
    assert Execute(m, [e]) == Execute(Next(m, e), []);
  }

  /** A worker on a fresh attempt finds neither receipt nor intent, and claims it. */
  lemma FreshAttemptClaims(world: World, id: nat, choice: Choice) returns (events: seq<Event>)
    requires id in world.workers && world.workers[id].pc.CheckReceipt? && choice == Lost(choice.textLooksTransient)
    requires world.workers[id].AttemptId() !in world.store.intents && world.workers[id].AttemptId() !in world.store.receipts
    ensures var w := world.workers[id];
            Execute(world, events)
            == world.(store := world.store.(intents := world.store.intents[w.AttemptId() := IntentFor(w.call, w.attempt, 0)]),
                      workers := world.workers[id := w.(claimedAt := 0, pc := ReserveBudget)])
  {
    var w := world.workers[id];
    TwoActs(world, id, choice);
    var world2 := Next(Next(world, Act(id, choice)), Act(id, choice));
    assert world2.workers == world.workers[id := w.(pc := Claim)];
    events := [Act(id, choice), Act(id, choice)] + [Act(id, choice)];
    OneMore(world, [Act(id, choice), Act(id, choice)], Act(id, choice));
    assert Next(world2, Act(id, choice)).workers == world.workers[id := w.(claimedAt := 0, pc := ReserveBudget)];
  }

  /** With its budget reserved it calls the provider, which goes unanswered. */
  lemma ReservedInvokes(world: World, id: nat, choice: Choice) returns (events: seq<Event>)
    requires id in world.workers && world.workers[id].pc.ReserveBudget? && choice == Lost(choice.textLooksTransient)
    ensures var w := world.workers[id]; var a := w.AttemptId();
            Execute(world, events)
            == world.(workers := world.workers[id := w.(pc := Finished(UncertainRaised(false)))],
                      runs := world.runs[a := Runs(world, a) + 1], replies := world.replies[a := choice.reply])
  {
    var w := world.workers[id];
    events := [Act(id, choice), Act(id, choice)];
    TwoActs(world, id, choice);
    var invoking := Next(world, Act(id, choice));
    assert invoking.workers == world.workers[id := w.(pc := Invoke)];
    var done := w.(pc := Finished(UncertainRaised(false)));
    assert Next(invoking, Act(id, choice)).workers == world.workers[id := done];
  }

  lemma FreshAttemptInvokes(world: World, id: nat, choice: Choice) returns (events: seq<Event>)
    requires id in world.workers && world.workers[id].pc.CheckReceipt? && choice == Lost(choice.textLooksTransient)
    requires world.workers[id].AttemptId() !in world.store.intents && world.workers[id].AttemptId() !in world.store.receipts
    ensures var w := world.workers[id]; var a := w.AttemptId(); var world' := Execute(world, events);
            && world'.store == world.store.(intents := world.store.intents[a := IntentFor(w.call, w.attempt, 0)])
            && world'.workers.Keys == world.workers.Keys
            && world'.runs == world.runs[a := Runs(world, a) + 1] && world'.replies == world.replies[a := choice.reply]
  {
    var claiming := FreshAttemptClaims(world, id, choice);
    var invoking := ReservedInvokes(Execute(world, claiming), id, choice);
    ExecuteAppend(world, claiming, invoking);
    events := claiming + invoking;
  }

  /** A worker with other arguments goes past the conflict, if its text is taken for transient. */
  lemma ConflictMovesOn(world: World, id: nat, other: Call) returns (events: seq<Event>)
    requires id !in world.workers && AttemptName(other.callId, 1) in world.store.intents
    requires AttemptName(other.callId, 1) !in world.store.receipts
    requires !Expected(world.store.intents[AttemptName(other.callId, 1)], other, 1)
    ensures Execute(world, events) == world.(workers := world.workers[id := Worker(other, 2, 2, 0, CheckReceipt)])
  {
    var choice, k, spawn := Lost(true), Worker(other, 2, 1, 0, CheckReceipt), Spawn(id, other, 2);
    var world0 := Next(world, spawn);
    TwoActs(world0, id, choice);
    var world2 := Next(Next(world0, Act(id, choice)), Act(id, choice));
    assert world2.workers == world.workers[id := k.(pc := Finished(ConflictRaised))];
    events := [spawn] + [Act(id, choice), Act(id, choice)] + [Act(id, choice)];
    assert ([spawn] + [Act(id, choice), Act(id, choice)])[1..] == [Act(id, choice), Act(id, choice)];
    OneMore(world, [spawn] + [Act(id, choice), Act(id, choice)], Act(id, choice));
    assert Next(world2, Act(id, choice)).workers == world.workers[id := k.(attempt := 2, pc := CheckReceipt)];
  }

  /** Without either condition two attempts of one call id can both have reached the provider: two executions use the
      id with different arguments, and the second one's conflict is taken for a transient failure. */
  lemma ConflictTakenForTransient(call: Call, other: Call)
    requires other.callId == call.callId && !Expected(IntentFor(call, 1, 0), other, 1)
    ensures exists events ::
              var world, a, b := Execute(INITIAL, events), AttemptName(call.callId, 1), AttemptName(call.callId, 2);
              && Runs(world, a) == 1 && a in world.replies && MayHaveReached(world.replies[a])
              && Runs(world, b) == 1 && b in world.replies && MayHaveReached(world.replies[b])
  {
    var started := Next(INITIAL, Spawn(0, call, 1));
    var first := FreshAttemptInvokes(started, 0, Lost(false));
    assert ([Spawn(0, call, 1)] + first)[1..] == first;
    var more := SecondAttemptReaches(Execute(started, first), call, other);
    ExecuteAppend(INITIAL, [Spawn(0, call, 1)] + first, more);
  }

  lemma SecondAttemptReaches(world: World, call: Call, other: Call) returns (more: seq<Event>)
    requires other.callId == call.callId && !Expected(IntentFor(call, 1, 0), other, 1) && 1 !in world.workers
    requires var a := AttemptName(call.callId, 1);
             world.store == EMPTY_STORE.(intents := map[a := IntentFor(call, 1, 0)]) && world.runs == map[a := 1]
             && world.replies == map[a := Lost(false).reply]
    ensures var world', a, b := Execute(world, more), AttemptName(call.callId, 1), AttemptName(call.callId, 2);
            && Runs(world', a) == 1 && a in world'.replies && MayHaveReached(world'.replies[a])
            && Runs(world', b) == 1 && b in world'.replies && MayHaveReached(world'.replies[b])
  {
    if AttemptName(call.callId, 1) == AttemptName(call.callId, 2) {
      AttemptNameInjective(call.callId, 1, call.callId, 2);
    }
    var second := ConflictMovesOn(world, 1, other);
    var third := FreshAttemptInvokes(Execute(world, second), 1, Lost(true));
    ExecuteAppend(world, second, third);
    more := second + third;
  }
}
