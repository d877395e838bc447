/** Safety of the call protocol under every interleaving, crash and restart. */
module CallSafety {
  import opened Common
  import opened ModelCalls
  import opened CallProtocol

  /** The worker has claimed its attempt and has not yet written its receipt. */
  predicate Holds(w: Worker) {
    w.pc.ReserveBudget? || w.pc.StoreRejectedArtifact? || w.pc.StoreRejectedReceipt?
    || w.pc.Invoke? || w.pc.StoreArtifact? || w.pc.StoreReceipt?
  }

  /** The receipt of `a` says what the provider did, and its artifact is in place. */
  ghost predicate ClosedBy(world: World, a: string, call: Call, reply: Reply) {
    && a in world.store.receipts
    && ClosingOf(call, reply).Some?
    && world.store.receipts[a].status == ClosingOf(call, reply).value.status
    && LoadResponse(world.store, a) == Some(ClosingOf(call, reply).value.response)
  }

  predicate HolderOk(world: World, w: Worker) {
    var a := w.AttemptId();
    && a in world.store.intents && world.store.intents[a] == w.OwnIntent()
    && a !in world.store.receipts
    && (w.pc.StoreArtifact? || w.pc.StoreReceipt? ==>
          && Runs(world, a) == 1 && a in world.replies && world.replies[a] == w.pc.reply
          && ClosingOf(w.call, w.pc.reply).Some?)
    && (!(w.pc.StoreArtifact? || w.pc.StoreReceipt?) ==> Runs(world, a) == 0)
    && (w.pc.StoreReceipt? ==>
          a in world.store.artifacts && world.store.artifacts[a] == ClosingOf(w.call, w.pc.reply).value.response.text)
    && (w.pc.StoreRejectedReceipt? ==>
          a in world.store.artifacts && world.store.artifacts[a] == RejectedResponse(w.call).text)
    && (!(w.pc.StoreReceipt? || w.pc.StoreRejectedReceipt?) ==> a !in world.store.artifacts)
  }

  ghost predicate WorkerOk(world: World, w: Worker) {
    && w.attempt >= 1 && w.attempt <= w.maxAttempts
    && (Holds(w) ==> HolderOk(world, w))
    && (w.pc.Settle? ==>
          && ClosedBy(world, w.AttemptId(), w.call, w.pc.reply)
          && Expected(world.store.intents[w.AttemptId()], w.call, w.attempt))
    && ((w.pc.Finished? || w.pc.Stopped?) && w.pc.outcome.Returned? ==>
          && w.AttemptId() in world.store.receipts
          && world.store.receipts[w.AttemptId()].status == Succeeded
          && LoadResponse(world.store, w.AttemptId()) == Some(w.pc.outcome.response)
          && Expected(world.store.intents[w.AttemptId()], w.call, w.attempt))
    && (w.pc.Finished? && w.pc.outcome.NotSentRaised? ==>
          w.AttemptId() in world.store.receipts && world.store.receipts[w.AttemptId()].status == NotSent)
  }

  /** The evidence of one attempt. */
  ghost predicate AttemptOk(world: World, a: string) {
    && Runs(world, a) <= 1
    && (Runs(world, a) == 1 ==> a in world.store.intents && a in world.replies)
    && (a in world.store.artifacts ==> a in world.store.intents)
    && (a in world.store.receipts ==>
          && a in world.store.intents
          && LoadResponse(world.store, a).Some?
          && (world.store.receipts[a].status == BudgetRejected <==> Runs(world, a) == 0)
          && (Runs(world, a) == 1 ==> exists call :: ClosedBy(world, a, call, world.replies[a])))
  }

  ghost predicate Safe(world: World) {
    && (forall id | id in world.workers :: WorkerOk(world, world.workers[id]))
    && (forall a :: AttemptOk(world, a))
    && (forall i, j | i in world.workers && j in world.workers && i != j
                      && Holds(world.workers[i]) && Holds(world.workers[j]) ::
          world.workers[i].AttemptId() != world.workers[j].AttemptId())
  }

  // ---------- One step ----------

  /** The two stores and the provider bookkeeping agree at every attempt but `a`, and evidence only grew. */
  ghost predicate ChangesOnlyAt(world: World, next: World, a: string) {
    && Grows(world.store, next.store)
    && next.store.intents - {a} == world.store.intents - {a}
    && next.store.artifacts - {a} == world.store.artifacts - {a}
    && next.store.receipts - {a} == world.store.receipts - {a}
    && next.runs - {a} == world.runs - {a}
    && next.replies - {a} == world.replies - {a}
  }

  /** Evidence was at most added, and only under the key `a`. */
  ghost predicate AddsAt(store: Store, next: Store, a: string) {
    && Grows(store, next)
    && next.intents - {a} == store.intents - {a}
    && next.artifacts - {a} == store.artifacts - {a}
    && next.receipts - {a} == store.receipts - {a}
  }

  lemma PersistAdds(store: Store, a: string, text: string)
    ensures PersistArtifact(store, a, text).Some? ==> AddsAt(store, PersistArtifact(store, a, text).value, a)
  {
  }

  lemma RecordAdds(store: Store, receipt: Receipt)
    ensures RecordReceipt(store, receipt).Some? ==> AddsAt(store, RecordReceipt(store, receipt).value, receipt.attemptId)
  {
  }

  lemma ClaimAdds(store: Store, w: Worker, c: Choice)
    requires w.pc.Claim?
    ensures AddsAt(store, Advance(store, w, c).0, w.AttemptId())
    ensures w.AttemptId() in store.intents ==> Advance(store, w, c).0 == store
  {
  }

  lemma AdvanceGrows(store: Store, w: Worker, c: Choice)
    ensures AddsAt(store, Advance(store, w, c).0, w.AttemptId())
    ensures !w.pc.Claim? && !Holds(w) ==> Advance(store, w, c).0 == store
    ensures w.pc.Claim? && w.AttemptId() in store.intents ==> Advance(store, w, c).0 == store
  {
    match w.pc
    case Claim => ClaimAdds(store, w, c);
    case StoreRejectedArtifact(code) => PersistAdds(store, w.AttemptId(), RejectedResponse(w.call).text);
    case StoreRejectedReceipt(code) =>
      RecordAdds(store, ReceiptFor(w.OwnIntent(), RejectedResponse(w.call), BudgetRejected, c.now));
    case StoreArtifact(reply) =>
      if ClosingOf(w.call, reply).Some? {
        PersistAdds(store, w.AttemptId(), ClosingOf(w.call, reply).value.response.text);
      }
    case StoreReceipt(reply) =>
      if ClosingOf(w.call, reply).Some? {
        var closing := ClosingOf(w.call, reply).value;
        RecordAdds(store, ReceiptFor(w.OwnIntent(), closing.response, closing.status, c.now));
      }
    case _ =>
  }

  lemma ActFrame(world: World, id: nat, choice: Choice)
    requires id in world.workers
    ensures ChangesOnlyAt(world, Next(world, Act(id, choice)), world.workers[id].AttemptId())
  {
    AdvanceGrows(world.store, world.workers[id], choice);
  }

  /** A worker's own step keeps its own condition and its attempt's evidence in order: before the provider call. */
  lemma EarlyStepOk(world: World, w: Worker, id: nat, choice: Choice)
    requires id in world.workers && world.workers[id] == w && WorkerOk(world, w) && AttemptOk(world, w.AttemptId())
    requires w.pc.CheckReceipt? || w.pc.CheckIntent? || w.pc.Claim? || w.pc.ClaimLost? || w.pc.ReserveBudget?
    ensures WorkerOk(Next(world, Act(id, choice)), Next(world, Act(id, choice)).workers[id])
    ensures AttemptOk(Next(world, Act(id, choice)), w.AttemptId())
  {
    var next := Next(world, Act(id, choice));
    assert w.AttemptId() == next.workers[id].AttemptId();
    if w.AttemptId() in world.store.receipts && Runs(world, w.AttemptId()) == 1 {
      var call :| ClosedBy(world, w.AttemptId(), call, world.replies[w.AttemptId()]);
      assert ClosedBy(next, w.AttemptId(), call, next.replies[w.AttemptId()]);
    }
  }

  lemma RejectStepOk(world: World, w: Worker, id: nat, choice: Choice)
    requires id in world.workers && world.workers[id] == w && WorkerOk(world, w) && AttemptOk(world, w.AttemptId())
    requires w.pc.StoreRejectedArtifact? || w.pc.StoreRejectedReceipt?
    ensures WorkerOk(Next(world, Act(id, choice)), Next(world, Act(id, choice)).workers[id])
    ensures AttemptOk(Next(world, Act(id, choice)), w.AttemptId())
  {
    var next := Next(world, Act(id, choice));
    assert HolderOk(world, w);
    assert w.AttemptId() == next.workers[id].AttemptId();
  }

  lemma InvokeStepOk(world: World, w: Worker, id: nat, choice: Choice)
    requires id in world.workers && world.workers[id] == w && WorkerOk(world, w) && AttemptOk(world, w.AttemptId())
    requires w.pc.Invoke?
    ensures WorkerOk(Next(world, Act(id, choice)), Next(world, Act(id, choice)).workers[id])
    ensures AttemptOk(Next(world, Act(id, choice)), w.AttemptId())
  {
    var next := Next(world, Act(id, choice));
    assert HolderOk(world, w);
    assert w.AttemptId() == next.workers[id].AttemptId();
  }

  lemma StoreStepOk(world: World, w: Worker, id: nat, choice: Choice)
    requires id in world.workers && world.workers[id] == w && WorkerOk(world, w) && AttemptOk(world, w.AttemptId())
    requires w.pc.StoreArtifact? || w.pc.StoreReceipt?
    ensures WorkerOk(Next(world, Act(id, choice)), Next(world, Act(id, choice)).workers[id])
    ensures AttemptOk(Next(world, Act(id, choice)), w.AttemptId())
  {
    var next := Next(world, Act(id, choice));
    var a := w.AttemptId();
    assert HolderOk(world, w);
    assert a == next.workers[id].AttemptId();
    if w.pc.StoreReceipt? {
      assert ClosedBy(next, a, w.call, next.replies[a]);
    }
  }

  lemma LateStepOk(world: World, w: Worker, id: nat, choice: Choice)
    requires id in world.workers && world.workers[id] == w && WorkerOk(world, w) && AttemptOk(world, w.AttemptId())
    requires w.pc.Settle? || w.pc.Finished? || w.pc.Stopped?
    ensures WorkerOk(Next(world, Act(id, choice)), Next(world, Act(id, choice)).workers[id])
    ensures AttemptOk(Next(world, Act(id, choice)), w.AttemptId())
  {
    var next := Next(world, Act(id, choice));
    var a := w.AttemptId();
    if a in world.store.receipts && Runs(world, a) == 1 {
      var call :| ClosedBy(world, a, call, world.replies[a]);
      assert ClosedBy(next, a, call, next.replies[a]);
    }
  }

  /** Nobody else is disturbed. */
  lemma OthersOk(world: World, id: nat, choice: Choice, other: nat)
    requires Safe(world) && id in world.workers && other in world.workers && other != id
    ensures WorkerOk(Next(world, Act(id, choice)), world.workers[other])
  {
    var w, v := world.workers[id], world.workers[other];
    var next := Next(world, Act(id, choice));
    var a, b := w.AttemptId(), v.AttemptId();
    assert WorkerOk(world, w) && WorkerOk(world, v);
    ActFrame(world, id, choice);
    AdvanceGrows(world.store, w, choice);
    if b in world.store.receipts && LoadResponse(world.store, b).Some? {
      LoadResponseStable(world.store, next.store, b);
    }
    if a == b && Holds(v) {
      assert !Holds(w);
      assert next.store == world.store && next.runs == world.runs;
    } else if a != b {
      assert b in next.store.intents <==> b in next.store.intents - {a};
      assert b in next.store.receipts <==> b in next.store.receipts - {a};
      assert b in next.store.artifacts <==> b in next.store.artifacts - {a};
      assert b in next.runs <==> b in next.runs - {a};
      assert b in next.replies <==> b in next.replies - {a};
    }
  }

  lemma ActorOk(world: World, id: nat, choice: Choice)
    requires Safe(world) && id in world.workers
    ensures WorkerOk(Next(world, Act(id, choice)), Next(world, Act(id, choice)).workers[id])
    ensures AttemptOk(Next(world, Act(id, choice)), world.workers[id].AttemptId())
  {
    var w := world.workers[id];
    assert WorkerOk(world, w) && AttemptOk(world, w.AttemptId());
    match w.pc
    case StoreRejectedArtifact(_) => RejectStepOk(world, w, id, choice);
    case StoreRejectedReceipt(_) => RejectStepOk(world, w, id, choice);
    case Invoke => InvokeStepOk(world, w, id, choice);
    case StoreArtifact(_) => StoreStepOk(world, w, id, choice);
    case StoreReceipt(_) => StoreStepOk(world, w, id, choice);
    case Settle(_) => LateStepOk(world, w, id, choice);
    case Finished(_) => LateStepOk(world, w, id, choice);
    case Stopped(_) => LateStepOk(world, w, id, choice);
    case _ => EarlyStepOk(world, w, id, choice);
  }

  /** Evidence of attempts nobody acted on is as good as it was. */
  lemma OtherAttemptsOk(world: World, next: World, a: string, b: string)
    requires ChangesOnlyAt(world, next, a) && a != b && AttemptOk(world, b)
    ensures AttemptOk(next, b)
  {
    assert b in next.store.intents <==> b in next.store.intents - {a};
    assert b in next.store.receipts <==> b in next.store.receipts - {a};
    assert b in next.store.artifacts <==> b in next.store.artifacts - {a};
    assert b in next.runs <==> b in next.runs - {a};
    assert b in next.replies <==> b in next.replies - {a};
    if b in world.store.receipts && Runs(world, b) == 1 {
      var call :| ClosedBy(world, b, call, world.replies[b]);
      assert ClosedBy(next, b, call, next.replies[b]);
    }
  }

  /** A worker starts holding an attempt only by creating its intent file. */
  lemma StartsHolding(store: Store, w: Worker, c: Choice)
    requires Holds(Advance(store, w, c).1)
    ensures Holds(w) || (w.pc.Claim? && w.AttemptId() !in store.intents)
    ensures Advance(store, w, c).1.AttemptId() == w.AttemptId()
  {
    match w.pc
    case StoreRejectedArtifact(code) =>
    case StoreRejectedReceipt(code) =>
    case StoreArtifact(reply) =>
    case StoreReceipt(reply) =>
    case Settle(reply) =>
    case _ =>
  }

  /** So two workers never hold the same attempt. */
  lemma HoldersStayApart(world: World, id: nat, choice: Choice, other: nat)
    requires Safe(world) && id in world.workers && other in world.workers && other != id
    requires Holds(Next(world, Act(id, choice)).workers[id]) && Holds(world.workers[other])
    ensures Next(world, Act(id, choice)).workers[id].AttemptId() != world.workers[other].AttemptId()
  {
    assert WorkerOk(world, world.workers[other]);
    StartsHolding(world.store, world.workers[id], choice);
  }

  lemma ActSafe(world: World, id: nat, choice: Choice)
    requires Safe(world) && id in world.workers
    ensures Safe(Next(world, Act(id, choice)))
  {
    var next := Next(world, Act(id, choice));
    var a := world.workers[id].AttemptId();
    ActorOk(world, id, choice);
    ActFrame(world, id, choice);
    forall other | other in next.workers
      ensures WorkerOk(next, next.workers[other])
    {
      if other != id { OthersOk(world, id, choice, other); }
    }
    forall b
      ensures AttemptOk(next, b)
    {
      if b != a { OtherAttemptsOk(world, next, a, b); }
    }
    forall i, j | i in next.workers && j in next.workers && i != j && Holds(next.workers[i]) && Holds(next.workers[j])
      ensures next.workers[i].AttemptId() != next.workers[j].AttemptId()
    {
      if i == id { HoldersStayApart(world, id, choice, j); }
      else if j == id { HoldersStayApart(world, id, choice, i); }
    }
  }

  lemma SameEvidenceSafe(world: World, next: World)
    requires Safe(world)
    requires next.store == world.store && next.runs == world.runs && next.replies == world.replies
    requires forall id | id in next.workers ::
               || (id in world.workers && next.workers[id] == world.workers[id])
               || (next.workers[id].pc.CheckReceipt? && 1 <= next.workers[id].attempt <= next.workers[id].maxAttempts)
    ensures Safe(next)
  {
    forall id | id in next.workers
      ensures WorkerOk(next, next.workers[id])
    {
      if id in world.workers && next.workers[id] == world.workers[id] {
        assert WorkerOk(world, world.workers[id]);
      }
    }
    forall a
      ensures AttemptOk(next, a)
    {
      assert AttemptOk(world, a);
      if a in world.store.receipts && Runs(world, a) == 1 {
        var call :| ClosedBy(world, a, call, world.replies[a]);
        assert ClosedBy(next, a, call, next.replies[a]);
      }
    }
  }

  lemma StepSafe(world: World, e: Event)
    requires Safe(world)
    ensures Safe(Next(world, e))
    ensures Grows(world.store, Next(world, e).store)
  {
    match e
    case Act(id, choice) =>
      if id in world.workers {
        ActSafe(world, id, choice);
        ActFrame(world, id, choice);
      }
    case Crash(id) => SameEvidenceSafe(world, Next(world, e));
    case Spawn(id, call, maxAttempts) => SameEvidenceSafe(world, Next(world, e));
  }

  lemma {:induction false} EveryRunSafe(world: World, events: seq<Event>)
    requires Safe(world)
    ensures Safe(Execute(world, events))
    ensures Grows(world.store, Execute(world, events).store)
    decreases |events|
  {
    if events == [] {
    } else {
      StepSafe(world, events[0]);
      EveryRunSafe(Next(world, events[0]), events[1..]);
    }
  }

  // ---------- Main results ----------

  /** Under any interleaving of workers, crashes and restarts the provider runs at most once per attempt, and not at all
      for an attempt whose receipt is a budget rejection; every other receipt reports what the provider did. */
  lemma {:induction false} AtMostOneInvocationPerAttempt(events: seq<Event>, a: string)
    ensures var world := Execute(INITIAL, events);
            && Runs(world, a) <= 1
            && (a in world.store.receipts && world.store.receipts[a].status == BudgetRejected ==> Runs(world, a) == 0)
            && (a in world.store.receipts && world.store.receipts[a].status != BudgetRejected ==>
                  && Runs(world, a) == 1 && a in world.replies && LoadResponse(world.store, a).Some?
                  && Reports(world.store.receipts[a].status, LoadResponse(world.store, a).value, world.replies[a]))
  {
    EveryRunSafe(INITIAL, events);
    var world := Execute(INITIAL, events);
    assert AttemptOk(world, a);
    if a in world.store.receipts && world.store.receipts[a].status != BudgetRejected {
      var call :| ClosedBy(world, a, call, world.replies[a]);
      ClosedExactly(call, world.replies[a]);
    }
  }

  /** A response a caller holds is durable: receipt, artifact and the expected intent are all in place. */
  lemma {:induction false} ReturnedResponseIsDurable(events: seq<Event>, id: nat, response: Response)
    requires var world := Execute(INITIAL, events);
             && id in world.workers
             && (world.workers[id].pc == Finished(Returned(response)) || world.workers[id].pc == Stopped(Returned(response)))
    ensures var world := Execute(INITIAL, events); var a := world.workers[id].AttemptId();
            && a in world.store.receipts && world.store.receipts[a].status == Succeeded
            && LoadResponse(world.store, a) == Some(response)
            && Expected(world.store.intents[a], world.workers[id].call, world.workers[id].attempt)
            && Runs(world, a) == 1
  {
    EveryRunSafe(INITIAL, events);
    var world := Execute(INITIAL, events);
    assert WorkerOk(world, world.workers[id]);
    assert AttemptOk(world, world.workers[id].AttemptId());
  }

  lemma {:induction false} ExecuteAppend(world: World, first: seq<Event>, second: seq<Event>)
    ensures Execute(world, first + second) == Execute(Execute(world, first), second)
    decreases |first|
  {
    if first == [] {
      assert first + second == second;
    } else {
      assert (first + second)[1..] == first[1..] + second;
      ExecuteAppend(Next(world, first[0]), first[1..], second);
    }
  }

  /** Whatever happens later, an attempt made with the same arguments gets the same response back in one step,
      without the provider, unless its own budget tracker refuses. */
  lemma {:induction false} LaterAttemptsReplay(events: seq<Event>, later: seq<Event>, id: nat, response: Response,
                                               id': nat, choice: Choice)
    requires var world := Execute(INITIAL, events);
             && id in world.workers
             && (world.workers[id].pc == Finished(Returned(response)) || world.workers[id].pc == Stopped(Returned(response)))
             && id' in Execute(INITIAL, events + later).workers
             && Execute(INITIAL, events + later).workers[id'].call == world.workers[id].call
             && Execute(INITIAL, events + later).workers[id'].attempt == world.workers[id].attempt
             && Execute(INITIAL, events + later).workers[id'].pc == CheckReceipt
    ensures var world := Execute(INITIAL, events + later);
            var next := Next(world, Act(id', choice));
            && next.runs == world.runs && next.store == world.store
            && next.workers[id'].pc == Finished(
                 if choice.reserveRefusal.Some? then BudgetRaised(choice.reserveRefusal.value)
                 else if choice.settleRefusal.Some? then BudgetRaised(choice.settleRefusal.value)
                 else Returned(response))
  {
    var world := Execute(INITIAL, events);
    ReturnedResponseIsDurable(events, id, response);
    ExecuteAppend(INITIAL, events, later);
    EveryRunSafe(INITIAL, events);
    EveryRunSafe(world, later);
    LoadResponseStable(world.store, Execute(world, later).store, world.workers[id].AttemptId());
  }
}
