/** Exactly when an uncertain job becomes postable again without its absence having been confirmed. */
module DeliveryReopening {
  import opened Common
  import opened Delivery
  import opened NotionAdapter
  import opened DeliveryRuns
  import opened DeliverySafety
  import opened DeliveryEvidence

  // ---------- Running fixed schedules ----------

  lemma {:induction false} RunConcat(s: Setting, w: World, before: seq<Event>, after: seq<Event>)
    ensures Run(s, w, before + after) == Run(s, Run(s, w, before), after)
    decreases |before|
  {
    if before == [] {
      assert before + after == after;
    } else {
      assert (before + after)[1..] == before[1..] + after;
      RunConcat(s, Next(s, w, before[0]), before[1..], after);
    }
  }

  /** One worker takes `n` steps in a row. */
  function Steps(id: nat, seen: Surroundings, n: nat): seq<Event> {
    if n == 0 then [] else Steps(id, seen, n - 1) + [Work(id, seen)]
  }

  lemma StepOn(s: Setting, w: World, id: nat, seen: Surroundings, n: nat)
    ensures Run(s, w, Steps(id, seen, n + 1)) == Next(s, Run(s, w, Steps(id, seen, n)), Work(id, seen))
  {
    RunConcat(s, w, Steps(id, seen, n), [Work(id, seen)]);
    var m := Run(s, w, Steps(id, seen, n));
    assert Run(s, m, [Work(id, seen)]) == Run(s, Next(s, m, Work(id, seen)), []);
  }

  /** A fresh worker starts and takes `n` steps in a row. */
  function Uninterrupted(id: nat, name: string, seen: Surroundings, n: nat): seq<Event> {
    [Spawn(id, name, false)] + Steps(id, seen, n)
  }

  function WithWorker(w: World, id: nat, k: Worker): World {
    w.(workers := w.workers[id := k])
  }

  lemma Started(s: Setting, w: World, id: nat, name: string, seen: Surroundings, n: nat)
    requires id !in w.workers
    ensures Run(s, w, Uninterrupted(id, name, seen, n))
         == Run(s, WithWorker(w, id, Worker(name, false, ToClaim)), Steps(id, seen, n))
  {
    assert Uninterrupted(id, name, seen, n)[1..] == Steps(id, seen, n);
  }

  /** Worlds that some events make equal stay equal. */
  lemma SameOnceEqual(s: Setting, w: World, m: World, before: seq<Event>, after: seq<Event>)
    requires Run(s, w, before) == Run(s, m, before)
    ensures Run(s, w, before + after) == Run(s, m, before + after)
  {
    RunConcat(s, w, before, after);
    RunConcat(s, m, before, after);
  }

  lemma {:induction false} StepsSplit(id: nat, seen: Surroundings, n: nat)
    requires n >= 1
    ensures exists after :: Steps(id, seen, n) == Steps(id, seen, 1) + after
  {
    if n == 1 {
      assert Steps(id, seen, 1) == Steps(id, seen, 1) + [];
    } else {
      StepsSplit(id, seen, n - 1);
      var after :| Steps(id, seen, n - 1) == Steps(id, seen, 1) + after;
      assert Steps(id, seen, n) == Steps(id, seen, 1) + (after + [Work(id, seen)]);
    }
  }

  /** Worlds that one step of a worker makes equal stay equal as it goes on. */
  lemma SameFromFirstStep(s: Setting, w: World, m: World, id: nat, seen: Surroundings, n: nat)
    requires n >= 1 && Run(s, w, Steps(id, seen, 1)) == Run(s, m, Steps(id, seen, 1))
    ensures Run(s, w, Steps(id, seen, n)) == Run(s, m, Steps(id, seen, n))
  {
    StepsSplit(id, seen, n);
    var after :| Steps(id, seen, n) == Steps(id, seen, 1) + after;
    SameOnceEqual(s, w, m, Steps(id, seen, 1), after);
  }

  // ---------- An uninterrupted attempt ----------

  /** No receipt is of an attempt yet to be claimed. */
  predicate NewAttempts(w: World) {
    forall a | a in w.receipts :: a.number <= w.job.attemptCount
  }

  /** Worker `id` is about to claim a job that holds no lease. */
  predicate ReadyToClaim(w: World, id: nat, k: Worker) {
    id in w.workers && w.workers[id] == k && k.pc.ToClaim? && w.job.lease.None? && Claimable(w.job.state)
  }

  function ClaimOf(s: Setting, w: World, k: Worker): Claim {
    Grant(w.job, k.name, w.now, s.leaseSeconds).claim
  }

  /** The world in which the worker holds its claim. */
  function ClaimedWorld(s: Setting, w: World, id: nat, k: Worker): World {
    Handed(w, Grant(w.job, k.name, w.now, s.leaseSeconds), id, k)
  }

  lemma ClaimStep(s: Setting, w: World, id: nat, k: Worker, seen: Surroundings)
    requires ReadyToClaim(w, id, k)
    ensures Run(s, w, Steps(id, seen, 1)) == ClaimedWorld(s, w, id, k)
  {
    StepOn(s, w, id, seen, 0);
    assert w.history + [] == w.history;
  }

  /** A worker about to record holds a lease that has no receipt yet. */
  predicate ReadyToRecord(w: World, id: nat, k: Worker, claim: Claim, outcome: Outcome, started: bool) {
    && id in w.workers && w.workers[id] == k.(pc := ToRecord(claim, outcome, started))
    && LeasedTo(w.job, claim.attempt) && claim.attempt !in w.receipts
    && (w.job.lease.value.phase.HeldQueryOnly? <==> claim.queryOnly)
    && w.job.identity.binding.targetType.TargetNotion? && claim.startedAt <= w.now
    && Claimable(claim.previousState) && (claim.queryOnly <==> claim.previousState.Uncertain?)
    && EndsAttempt(outcome.state) && !(claim.queryOnly && started)
  }

  lemma RecordStep(s: Setting, w: World, id: nat, k: Worker, claim: Claim, outcome: Outcome, started: bool, seen: Surroundings)
    requires ReadyToRecord(w, id, k, claim, outcome, started)
    ensures var receipt := ReceiptOf(w, w.workers[id], claim, outcome, started);
            Next(s, w, Work(id, seen)) == w.(receipts := w.receipts[claim.attempt := receipt],
                                             workers := w.workers[id := k.(pc := ToFinalize(claim, receipt))])
  {
  }

  /** The attempt of `w` has closed with `outcome` and its worker has returned. */
  predicate ClosedIn(w: World, w': World, id: nat, k: Worker, claim: Claim, outcome: Outcome) {
    && w'.job.state == outcome.state && w'.job.lease.None? && w'.now == w.now
    && w'.job.identity == w.job.identity && w'.job.attemptCount == w.job.attemptCount
    && w'.job.last.Some? && w'.job.last.value.attempt == claim.attempt
    && claim.attempt in w'.receipts && w'.receipts[claim.attempt].outcome == outcome
    && w'.history == w.history + [Ended(claim.attempt.number, claim.queryOnly, outcome.state, outcome.code == ABSENT_CODE)]
    && w'.workers == w.workers[id := k.Returned()]
  }

  lemma FinalizeStep(s: Setting, w: World, id: nat, k: Worker, claim: Claim, receipt: Receipt, seen: Surroundings)
    requires id in w.workers && w.workers[id] == k.(pc := ToFinalize(claim, receipt))
    requires EndState(s.variant, receipt.queryOnly, receipt.outcome.state) == receipt.outcome.state
    requires LeasedTo(w.job, claim.attempt) && (w.job.lease.value.phase.HeldQueryOnly? <==> claim.queryOnly)
    requires receipt.attempt == claim.attempt && receipt.binding == w.job.identity.binding
    requires claim.attempt in w.receipts && w.receipts[claim.attempt] == receipt
    ensures ClosedIn(w, Next(s, w, Work(id, seen)), id, k, claim, receipt.outcome)
  {
  }

  /** Two more steps record the receipt and settle the job with it. */
  lemma RecordAndFinalize(s: Setting, w: World, id: nat, k: Worker, claim: Claim, outcome: Outcome, started: bool,
                          seen: Surroundings)
    requires EndState(s.variant, claim.queryOnly, outcome.state) == outcome.state
    requires ReadyToRecord(w, id, k, claim, outcome, started)
    ensures ClosedIn(w, Next(s, Next(s, w, Work(id, seen)), Work(id, seen)), id, k, claim, outcome)
  {
    RecordStep(s, w, id, k, claim, outcome, started, seen);
    var receipt := ReceiptOf(w, w.workers[id], claim, outcome, started);
    var m := Next(s, w, Work(id, seen));
    FinalizeStep(s, m, id, k, claim, receipt, seen);
    assert m.workers[id := k.Returned()] == w.workers[id := k.Returned()];
  }

  /** A query-only worker's look at the remote side. */
  lemma QueryStep(s: Setting, w: World, id: nat, k: Worker, seen: Surroundings)
    requires ReadyToClaim(w, id, k) && w.job.state.Uncertain?
    ensures var claim := ClaimOf(s, w, k);
            var w1 := ClaimedWorld(s, w, id, k);
            claim.queryOnly && !BeforeMutation(w.job.identity, true, seen).Announce?
            && Next(s, w1, Work(id, seen))
               == WithWorker(w1, id, k.(pc := ToRecord(claim, BeforeOutcome(BeforeMutation(w.job.identity, true, seen)), false)))
  {
    QueryOnlyEndsRetryableExactly(w.job.identity, seen);
  }

  lemma UncertainAttemptCloses(s: Setting, w: World, id: nat, k: Worker, seen: Surroundings)
    requires NewAttempts(w) && (s.variant.AsWritten? || !Misconfigured(w.job.identity, seen))
    requires ReadyToClaim(w, id, k) && w.job.state.Uncertain?
    requires w.job.identity.binding.targetType.TargetNotion?
    ensures !BeforeMutation(w.job.identity, true, seen).Announce?
    ensures ClosedIn(ClaimedWorld(s, w, id, k), Run(s, w, Steps(id, seen, 4)), id, k, ClaimOf(s, w, k),
                     BeforeOutcome(BeforeMutation(w.job.identity, true, seen)))
  {
    ClaimStep(s, w, id, k, seen);
    QueryStep(s, w, id, k, seen);
    QueryOnlyEndsRetryableExactly(w.job.identity, seen);
    StepOn(s, w, id, seen, 1);
    StepOn(s, w, id, seen, 2);
    StepOn(s, w, id, seen, 3);
    var claim, w1 := ClaimOf(s, w, k), ClaimedWorld(s, w, id, k);
    var outcome := BeforeOutcome(BeforeMutation(w.job.identity, true, seen));
    var w2 := WithWorker(w1, id, k.(pc := ToRecord(claim, outcome, false)));
    assert claim.attempt !in w.receipts;
    RecordAndFinalize(s, w2, id, k, claim, outcome, false, seen);
    assert w2.workers[id := k.Returned()] == w1.workers[id := k.Returned()];
  }

  /** One more attempt, query-only or not, took `w` to `w'`, where the job shows `outcome` and holds no lease. */
  predicate AttemptEnded(w: World, w': World, id: nat, k: Worker, added: seq<Entry>, outcome: Outcome) {
    && w'.job.state == outcome.state && w'.job.lease.None? && w'.now == w.now
    && w'.job.identity == w.job.identity && w'.job.attemptCount == w.job.attemptCount + 1
    && w'.job.last.Some? && w'.job.last.value.attempt.number == w'.job.attemptCount
    && w'.job.last.value.attempt in w'.receipts && w'.receipts[w'.job.last.value.attempt].outcome == outcome
    && w'.history == w.history + added && w'.workers == w.workers[id := k.Returned()]
  }

  /** `m` is `w` with the attempt under way, and `before` is what that has added to the history. */
  lemma Ends(w: World, m: World, w': World, id: nat, k: Worker, claim: Claim, outcome: Outcome, before: seq<Entry>)
    requires ClosedIn(m, w', id, k, claim, outcome) && claim.attempt.number == m.job.attemptCount == w.job.attemptCount + 1
    requires m.job.identity == w.job.identity && m.now == w.now && m.history == w.history + before
    requires id in m.workers && m.workers == w.workers[id := m.workers[id]]
    ensures AttemptEnded(w, w', id, k, before + [Ended(w.job.attemptCount + 1, claim.queryOnly, outcome.state,
                                                       outcome.code == ABSENT_CODE)], outcome)
  {
    var e := Ended(w.job.attemptCount + 1, claim.queryOnly, outcome.state, outcome.code == ABSENT_CODE);
    assert w.history + before + [e] == w.history + (before + [e]);
    assert m.workers[id := k.Returned()] == w.workers[id := k.Returned()];
  }

  lemma UncertainAttemptEnds(s: Setting, w: World, id: nat, k: Worker, seen: Surroundings)
    requires NewAttempts(w) && (s.variant.AsWritten? || !Misconfigured(w.job.identity, seen))
    requires ReadyToClaim(w, id, k) && w.job.state.Uncertain?
    requires w.job.identity.binding.targetType.TargetNotion?
    ensures !BeforeMutation(w.job.identity, true, seen).Announce?
    ensures var n, outcome := w.job.attemptCount + 1, BeforeOutcome(BeforeMutation(w.job.identity, true, seen));
            AttemptEnded(w, Run(s, w, Steps(id, seen, 4)), id, k,
                         [Claimed(n, true), Ended(n, true, outcome.state, outcome.code == ABSENT_CODE)], outcome)
  {
    UncertainAttemptCloses(s, w, id, k, seen);
    var n, outcome := w.job.attemptCount + 1, BeforeOutcome(BeforeMutation(w.job.identity, true, seen));
    Ends(w, ClaimedWorld(s, w, id, k), Run(s, w, Steps(id, seen, 4)), id, k, ClaimOf(s, w, k), outcome, [Claimed(n, true)]);
  }

  /** An uninterrupted attempt on an uncertain job makes it retryable, and so postable, exactly when the adapter is
      missing, is set up for another database, lacks a required schema, or raises on the query's answer.
      In every other case the job stays uncertain or is finished. */
  lemma UncertainReopensExactly(s: Setting, w: World, id: nat, k: Worker, seen: Surroundings)
    requires Sound(w) && s.variant.AsWritten? && ReadyToClaim(w, id, k) && w.job.state.Uncertain?
    requires w.job.identity.binding.targetType.TargetNotion?
    ensures var w' := Run(s, w, Steps(id, seen, 4));
            var n := w.job.attemptCount + 1;
            && (w'.job.state.RetryableFailed? <==> Misconfigured(w.job.identity, seen))
            && (!w'.job.state.RetryableFailed? ==> w'.job.state.Uncertain? || Terminal(w'.job.state))
            && |w'.history| == |w.history| + 2 && w.history < w'.history
            && w'.history[|w.history|] == Claimed(n, true)
            && w'.history[|w.history| + 1].Ended? && w'.history[|w.history| + 1].state == w'.job.state
  {
    UncertainAttemptEnds(s, w, id, k, seen);
    QueryOnlyEndsRetryableExactly(w.job.identity, seen);
  }

  /** The lease on record is query-only, and has a retryable receipt, or lapsed without a receipt. */
  predicate SettlesRetryable(w: World) {
    && w.job.lease.Some? && w.job.lease.value.phase.HeldQueryOnly?
    && var lease := w.job.lease.value;
       if lease.attempt in w.receipts then w.receipts[lease.attempt].outcome.state.RetryableFailed? else lease.expiresAt <= w.now
  }

  /** Either a claim finds the lease on record so, or the query-only attempt with the lease finalizes a retryable receipt. */
  predicate ReopensNow(w: World, e: Event) {
    && e.Work? && e.id in w.workers
    && var pc := w.workers[e.id].pc;
       || (pc.ToClaim? && SettlesRetryable(w))
       || (pc.ToFinalize? && w.job.lease.Some? && w.job.lease.value.phase.HeldQueryOnly?
           && pc.claim.attempt == w.job.lease.value.attempt && pc.receipt.outcome.state.RetryableFailed?)
  }

  /** What a claim adds to the history. */
  function ClaimAdds(s: Setting, w: World, k: Worker): seq<Entry> {
    match ClaimJob(s.variant, w.job, w.receipts, k.name, w.now, s.leaseSeconds)
    case Granted(_, claim) =>
      (if w.job.lease.Some? then [EndedBy(w, claim.previousState)] else []) + [Claimed(claim.attempt.number, claim.queryOnly)]
    case Recovered(job) => if w.job.lease.Some? then [EndedBy(w, job.state)] else []
    case _ => []
  }

  /** The step from `w` to `w'` ended a query-only attempt as a retryable failure. */
  predicate Reopens(w: World, w': World) {
    exists i :: |w.history| <= i < |w'.history| && QuietlyReleased(w'.history[i])
  }

  lemma AddedReopens(w: World, w': World, added: seq<Entry>)
    requires w'.history == w.history + added && |added| <= 2
    ensures Reopens(w, w') <==> (|added| > 0 && QuietlyReleased(added[0])) || (|added| > 1 && QuietlyReleased(added[1]))
  {
    forall i | 0 <= i < |added| && QuietlyReleased(added[i]) ensures Reopens(w, w') {
      assert w'.history[|w.history| + i] == added[i];
    }
  }

  /** A claim settles the lease on record first. */
  lemma ClaimReopensExactly(s: Setting, w: World, id: nat, k: Worker)
    requires Safe(w) && id in w.workers && w.workers[id] == k && k.pc.ToClaim?
    ensures var w', n := StepClaim(s, w, id, k), w.job.attemptCount;
            && w.history <= w'.history && (Reopens(w, w') <==> s.variant.AsWritten? && SettlesRetryable(w))
            && (Reopens(w, w') && w.job.lease.value.attempt !in w.receipts ==>
                  w'.history == w.history + [Ended(n, true, RetryableFailed, false), Claimed(n + 1, false)])
            && (Reopens(w, w') && w.job.lease.value.attempt in w.receipts ==>
                  w'.job.state.RetryableFailed? && |w'.history| == |w.history| + 1)
  {
    var added := ClaimAdds(s, w, k);
    assert StepClaim(s, w, id, k).history == w.history + added;
    AddedReopens(w, StepClaim(s, w, id, k), added);
  }

  lemma FinalizeReopensExactly(s: Setting, w: World, id: nat, k: Worker)
    requires Safe(w) && id in w.workers && w.workers[id] == k && k.pc.ToFinalize?
    ensures var w' := StepFinalize(s, w, id, k, k.pc.receipt);
            && w.history <= w'.history
            && (Reopens(w, w') <==>
                  && s.variant.AsWritten? && w.job.lease.Some? && w.job.lease.value.phase.HeldQueryOnly?
                  && k.pc.claim.attempt == w.job.lease.value.attempt && k.pc.receipt.outcome.state.RetryableFailed?)
            && (Reopens(w, w') ==> w'.job.state.RetryableFailed? && |w'.history| == |w.history| + 1
                                   && k.pc.claim.attempt in w.receipts)
  {
    assert ClaimOk(w, k.pc) && PcOk(w, k.pc);
    var w' := StepFinalize(s, w, id, k, k.pc.receipt);
    AddedReopens(w, w', if Finalize(s.variant, w.job, k.pc.receipt, w.now).Applied? then [EndedBy(w, w'.job.state)] else []);
  }

  lemma OtherStepsNeverReopen(s: Setting, w: World, e: Event)
    requires !(e.Work? && e.id in w.workers && (w.workers[e.id].pc.ToClaim? || w.workers[e.id].pc.ToFinalize?))
    ensures w.history <= Next(s, w, e).history && !Reopens(w, Next(s, w, e))
  {
  }

  /** Which steps of any run end a query-only attempt, and with it an uncertain job, as a retryable failure. When the
      lease lapsed without a receipt the same step hands out a claim that may post. */
  lemma StepReopensExactly(s: Setting, w: World, e: Event)
    requires Safe(w)
    ensures var w', n := Next(s, w, e), w.job.attemptCount;
            && w.history <= w'.history
            && (Reopens(w, w') <==> s.variant.AsWritten? && ReopensNow(w, e))
            && (Reopens(w, w') && w.job.lease.value.attempt !in w.receipts ==>
                  w'.history == w.history + [Ended(n, true, RetryableFailed, false), Claimed(n + 1, false)])
            && (Reopens(w, w') && w.job.lease.value.attempt in w.receipts ==>
                  w'.job.state.RetryableFailed? && |w'.history| == |w.history| + 1)
  {
    if e.Work? && e.id in w.workers && w.workers[e.id].pc.ToClaim? {
      ClaimReopensExactly(s, w, e.id, w.workers[e.id]);
    } else if e.Work? && e.id in w.workers && w.workers[e.id].pc.ToFinalize? {
      FinalizeReopensExactly(s, w, e.id, w.workers[e.id]);
    } else {
      OtherStepsNeverReopen(s, w, e);
    }
  }

  /** The world right after a worker has announced. */
  function AnnouncedWorld(s: Setting, w: World, id: nat, k: Worker): World {
    var granted := Grant(w.job, k.name, w.now, s.leaseSeconds);
    var n := granted.claim.attempt.number;
    var lease := granted.job.lease.GetOr(Lease("", granted.claim.attempt, 0, 0, HeldClaimed)).(phase := HeldMutationStarted);
    w.(job := granted.job.(lease := Some(lease)), workers := w.workers[id := k.(pc := ToPost(granted.claim))],
       history := w.history + [Claimed(n, granted.claim.queryOnly), Announced(n)])
  }

  /** The world right after a worker has announced and posted. */
  function PostedWorld(s: Setting, w: World, id: nat, k: Worker, seen: Surroundings): World {
    var announced, claim := AnnouncedWorld(s, w, id, k), ClaimOf(s, w, k);
    announced.(workers := w.workers[id := k.(pc := ToRecord(claim, AfterMutation(w.job.identity, seen), true))],
               history := announced.history + [Posting(claim.attempt.number, true)])
  }

  /** The claimed worker sees nothing. */
  lemma LookStep(s: Setting, w: World, id: nat, k: Worker, seen: Surroundings)
    requires !w.job.state.Uncertain? && BeforeMutation(w.job.identity, false, seen).Announce?
    ensures var w1 := ClaimedWorld(s, w, id, k);
            Next(s, w1, Work(id, seen)) == WithWorker(w1, id, k.(pc := ToAnnounce(ClaimOf(s, w, k))))
  {
  }

  lemma AnnounceStep(s: Setting, w: World, id: nat, k: Worker, seen: Surroundings)
    requires !w.job.state.Uncertain?
    ensures var w2 := WithWorker(ClaimedWorld(s, w, id, k), id, k.(pc := ToAnnounce(ClaimOf(s, w, k))));
            Next(s, w2, Work(id, seen)) == AnnouncedWorld(s, w, id, k)
  {
    var claim, w1 := ClaimOf(s, w, k), ClaimedWorld(s, w, id, k);
    var w3 := Next(s, WithWorker(w1, id, k.(pc := ToAnnounce(claim))), Work(id, seen));
    assert w3.history == w1.history + [Announced(claim.attempt.number)];
    assert w3.workers == w.workers[id := k.(pc := ToPost(claim))];
  }

  /** Three steps announce the mutation. */
  lemma PostableJobIsAnnounced(s: Setting, w: World, id: nat, k: Worker, seen: Surroundings)
    requires ReadyToClaim(w, id, k) && (w.job.state.Pending? || w.job.state.RetryableFailed?)
    requires BeforeMutation(w.job.identity, false, seen).Announce?
    ensures Run(s, w, Steps(id, seen, 3)) == AnnouncedWorld(s, w, id, k)
  {
    ClaimStep(s, w, id, k, seen);
    StepOn(s, w, id, seen, 1);
    StepOn(s, w, id, seen, 2);
    LookStep(s, w, id, k, seen);
    AnnounceStep(s, w, id, k, seen);
  }

  lemma PostStep(s: Setting, w: World, id: nat, k: Worker, seen: Surroundings)
    ensures Next(s, AnnouncedWorld(s, w, id, k), Work(id, seen)) == PostedWorld(s, w, id, k, seen)
  {
    var w3, claim := AnnouncedWorld(s, w, id, k), ClaimOf(s, w, k);
    assert w3.workers[id := k.(pc := ToRecord(claim, AfterMutation(w.job.identity, seen), true))]
        == w.workers[id := k.(pc := ToRecord(claim, AfterMutation(w.job.identity, seen), true))];
  }

  /** An attempt on a job that may be posted, with nothing visible remotely, announces and posts once. */
  lemma PostableJobIsPosted(s: Setting, w: World, id: nat, k: Worker, seen: Surroundings)
    requires ReadyToClaim(w, id, k) && (w.job.state.Pending? || w.job.state.RetryableFailed?)
    requires BeforeMutation(w.job.identity, false, seen).Announce?
    ensures Run(s, w, Steps(id, seen, 4)) == PostedWorld(s, w, id, k, seen)
  {
    PostableJobIsAnnounced(s, w, id, k, seen);
    StepOn(s, w, id, seen, 3);
    PostStep(s, w, id, k, seen);
  }

  lemma PostedAttemptCloses(s: Setting, w: World, id: nat, k: Worker, seen: Surroundings)
    requires NewAttempts(w) && ReadyToClaim(w, id, k) && (w.job.state.Pending? || w.job.state.RetryableFailed?)
    requires w.job.identity.binding.targetType.TargetNotion?
    requires BeforeMutation(w.job.identity, false, seen).Announce?
    ensures ClosedIn(PostedWorld(s, w, id, k, seen), Run(s, w, Steps(id, seen, 6)), id, k, ClaimOf(s, w, k),
                     AfterMutation(w.job.identity, seen))
  {
    PostableJobIsPosted(s, w, id, k, seen);
    AfterMutationIsSafe(w.job.identity, seen);
    StepOn(s, w, id, seen, 4);
    StepOn(s, w, id, seen, 5);
    var claim := ClaimOf(s, w, k);
    assert claim.attempt !in w.receipts;
    RecordAndFinalize(s, PostedWorld(s, w, id, k, seen), id, k, claim, AfterMutation(w.job.identity, seen), true, seen);
  }

  /** Left alone, the posting attempt ends in the state the remote side showed. */
  lemma PostedAttemptEnds(s: Setting, w: World, id: nat, k: Worker, seen: Surroundings)
    requires NewAttempts(w) && ReadyToClaim(w, id, k) && (w.job.state.Pending? || w.job.state.RetryableFailed?)
    requires w.job.identity.binding.targetType.TargetNotion?
    requires BeforeMutation(w.job.identity, false, seen).Announce?
    ensures var n, outcome := w.job.attemptCount + 1, AfterMutation(w.job.identity, seen);
            AttemptEnded(w, Run(s, w, Steps(id, seen, 6)), id, k,
                         [Claimed(n, false), Announced(n), Posting(n, true), Ended(n, false, outcome.state, false)], outcome)
  {
    PostedAttemptCloses(s, w, id, k, seen);
    AfterTells(w.job.identity, seen);
    var n, outcome := w.job.attemptCount + 1, AfterMutation(w.job.identity, seen);
    Ends(w, PostedWorld(s, w, id, k, seen), Run(s, w, Steps(id, seen, 6)), id, k, ClaimOf(s, w, k), outcome,
         [Claimed(n, false), Announced(n), Posting(n, true)]);
  }
}
