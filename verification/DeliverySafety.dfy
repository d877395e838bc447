/** What every step of the delivery protocol keeps: the order of the history, and who holds the job. */
module DeliverySafety {
  import opened Common
  import opened Delivery
  import opened NotionAdapter
  import opened DeliveryRuns

  // ---------- The law every history obeys ----------

  function NumberOf(e: Entry): nat {
    if e.QuarantineOver? || e.ConfirmedAbsent? || e.Clash? then 0 else e.number
  }

  /** A query-only attempt ended in a retryable failure. */
  predicate QuietlyReleased(e: Entry) {
    e.Ended? && e.queryOnly && e.state.RetryableFailed?
  }

  /** What makes an announced job postable again. */
  predicate Releases(e: Entry) {
    e.ConfirmedAbsent? || QuietlyReleased(e)
  }

  /** A mutation was announced and nothing has released the job since. */
  predicate Exposed(h: seq<Entry>)
    decreases |h|
  {
    h != [] && (h[|h| - 1].Announced? || (!Releases(h[|h| - 1]) && Exposed(h[..|h| - 1])))
  }

  /** After some quarantine was over an attempt was claimed query-only, and it ended with a completed query without a
      match. */
  ghost predicate Grounded(h: seq<Entry>, evidence: nat) {
    && Ended(evidence, true, Uncertain, true) in h
    && exists q, c :: 0 <= q < c < |h| && h[q].QuarantineOver? && h[c] == Claimed(evidence, true)
  }

  /** No later attempt was claimed yet. */
  predicate Latest(h: seq<Entry>, n: nat) {
    forall x | x in h :: NumberOf(x) <= n
  }

  predicate Posted(h: seq<Entry>, n: nat) {
    exists x | x in h :: x.Posting? && x.number == n
  }

  predicate HasEnded(h: seq<Entry>, n: nat) {
    exists x | x in h :: x.Ended? && x.number == n
  }

  /** Whoever announced a mutation has ended without knowing what became of it. */
  predicate AnnouncedEnded(h: seq<Entry>) {
    forall x | x in h && x.Announced? :: Ended(x.number, false, Uncertain, false) in h
  }

  /** What an entry requires of the history before it. */
  ghost predicate Fits(h: seq<Entry>, e: Entry) {
    match e
    case Claimed(n, _) => forall x | x in h :: NumberOf(x) < n
    case Announced(n) => !Exposed(h) && Claimed(n, false) in h && Announced(n) !in h && Latest(h, n)
    case Posting(n, held) => Announced(n) in h && !Posted(h, n) && (held ==> Latest(h, n) && !HasEnded(h, n))
    case Ended(n, queryOnly, _, _) =>
      Claimed(n, queryOnly) in h && Latest(h, n) && !HasEnded(h, n)
    case QuarantineOver(due, at) => due <= at
    case ConfirmedAbsent(evidence) => Grounded(h, evidence) && AnnouncedEnded(h)
    case Clash => true
  }

  ghost predicate Orderly(h: seq<Entry>)
    decreases |h|
  {
    h != [] ==> Orderly(h[..|h| - 1]) && Fits(h[..|h| - 1], h[|h| - 1])
  }

  lemma Append(h: seq<Entry>, e: Entry)
    ensures Orderly(h + [e]) <==> Orderly(h) && Fits(h, e)
    ensures Exposed(h + [e]) <==> e.Announced? || (!Releases(e) && Exposed(h))
  {
    assert (h + [e])[..|h|] == h;
  }

  lemma {:induction false} PrefixOrderly(h: seq<Entry>, n: nat)
    requires Orderly(h) && n <= |h|
    ensures Orderly(h[..n])
    ensures n < |h| ==> Fits(h[..n], h[n])
    decreases |h|
  {
    if n == |h| {
      assert h[..n] == h;
    } else {
      var p := h[..|h| - 1];
      if n < |p| {
        PrefixOrderly(p, n);
        assert p[..n] == h[..n];
      }
    }
  }

  lemma AttemptsNeverRepeat(h: seq<Entry>, i: nat, j: nat)
    requires Orderly(h) && i < j < |h| && h[i].Claimed? && h[j].Claimed?
    ensures h[i].number < h[j].number
  {
    PrefixOrderly(h, j);
    assert h[i] == h[..j][i];
    assert NumberOf(h[..j][i]) < h[j].number;
  }

  // ---------- The state that goes with a history ----------

  /** No claim of the job can lead to a post. */
  predicate Guarded(job: Job) {
    || job.state.Uncertain?
    || Terminal(job.state)
    || (job.lease.Some? && !job.lease.value.phase.HeldClaimed?)
  }

  predicate JobOk(w: World) {
    && (w.job.state.Delivering? <==> w.job.lease.Some?)
    && (Exposed(w.history) ==> Guarded(w.job))
    && (forall x | x in w.history :: NumberOf(x) <= w.job.attemptCount)
    && (w.job.lease.Some? ==>
          var lease := w.job.lease.value;
          && lease.attempt.number == w.job.attemptCount
          && Claimed(lease.attempt.number, lease.phase.HeldQueryOnly?) in w.history
          && (forall x | x in w.history && x.Ended? :: x.number != lease.attempt.number))
  }

  predicate ReceiptsOk(w: World) {
    && (forall a | a in w.receipts ::
          var r := w.receipts[a];
          && r.attempt == a && a.number <= w.job.attemptCount && r.binding == w.job.identity.binding
          && EndsAttempt(r.outcome.state)
          && (r.mutationStarted ==> SafeAfterMutation(r.outcome.state)))
    && (w.job.lease.Some? && w.job.lease.value.attempt in w.receipts ==>
          var r := w.receipts[w.job.lease.value.attempt];
          && (r.queryOnly <==> w.job.lease.value.phase.HeldQueryOnly?)
          && (w.job.lease.value.phase.HeldMutationStarted? ==> r.mutationStarted))
  }

  predicate Mutated(pc: Pc) {
    pc.ToPost? || (pc.ToRecord? && pc.started) || (pc.ToFinalize? && pc.receipt.mutationStarted)
  }

  function PhaseOf(pc: Pc): Phase
    requires HasClaim(pc)
  {
    if pc.claim.queryOnly then HeldQueryOnly else if Mutated(pc) then HeldMutationStarted else HeldClaimed
  }

  predicate ClaimOk(w: World, pc: Pc)
    requires HasClaim(pc)
  {
    var n := pc.claim.attempt.number;
    && n <= w.job.attemptCount
    && Claimed(n, pc.claim.queryOnly) in w.history
    && (Announced(n) in w.history ==> Mutated(pc))
    && (Mutated(pc) ==> Announced(n) in w.history)
    && (Posted(w.history, n) ==> Mutated(pc) && !pc.ToPost?)
    && (w.job.lease.Some? && w.job.lease.value.attempt.number == n ==>
          w.job.lease.value.attempt == pc.claim.attempt && w.job.lease.value.phase == PhaseOf(pc))
  }

  predicate PcOk(w: World, pc: Pc)
    requires HasClaim(pc)
  {
    && Claimable(pc.claim.previousState)
    && (pc.claim.queryOnly <==> pc.claim.previousState.Uncertain?)
    && (pc.ToAnnounce? || pc.ToPost? ==> !pc.claim.queryOnly)
    && (pc.ToRecord? ==> EndsAttempt(pc.outcome.state))
    && (pc.ToRecord? && pc.started ==> !pc.claim.queryOnly && SafeAfterMutation(pc.outcome.state))
    && (!pc.ToFinalize? ==> pc.claim.attempt !in w.receipts)
    && (pc.ToFinalize? ==>
          && pc.claim.attempt in w.receipts && w.receipts[pc.claim.attempt] == pc.receipt
          && pc.receipt.queryOnly == pc.claim.queryOnly && !(pc.receipt.queryOnly && pc.receipt.mutationStarted))
  }

  predicate WorkersOk(w: World) {
    && (forall i | i in w.workers && HasClaim(w.workers[i].pc) :: ClaimOk(w, w.workers[i].pc) && PcOk(w, w.workers[i].pc))
    && (forall i, j | i in w.workers && j in w.workers && i != j && HasClaim(w.workers[i].pc) && HasClaim(w.workers[j].pc) ::
          w.workers[i].pc.claim.attempt.number != w.workers[j].pc.claim.attempt.number)
  }

  ghost predicate Sound(w: World) {
    Orderly(w.history) && JobOk(w) && ReceiptsOk(w) && WorkersOk(w)
  }

  // ---------- A step of one worker leaves the others alone ----------

  /** Nothing about attempt `n` changed, and the history grew. */
  predicate Undisturbed(w: World, w': World, n: nat) {
    && w.job.attemptCount <= w'.job.attemptCount
    && w.history <= w'.history
    && (Announced(n) in w'.history ==> Announced(n) in w.history)
    && (Posted(w'.history, n) ==> Posted(w.history, n))
    && (w'.job.lease.Some? && w'.job.lease.value.attempt.number == n ==> w'.job.lease == w.job.lease)
    && (forall a | a in w.receipts :: a in w'.receipts && w'.receipts[a] == w.receipts[a])
    && (forall a | a in w'.receipts && a.number == n :: a in w.receipts)
  }

  lemma OthersKept(w: World, w': World, id: nat)
    requires WorkersOk(w) && id in w'.workers && w'.workers - {id} == w.workers - {id}
    requires forall i | i in w.workers && i != id && HasClaim(w.workers[i].pc) ::
               Undisturbed(w, w', w.workers[i].pc.claim.attempt.number)
    requires HasClaim(w'.workers[id].pc) ==>
               && ClaimOk(w', w'.workers[id].pc) && PcOk(w', w'.workers[id].pc)
               && forall i | i in w.workers && i != id && HasClaim(w.workers[i].pc) ::
                    w.workers[i].pc.claim.attempt.number != w'.workers[id].pc.claim.attempt.number
    ensures WorkersOk(w')
  {
    forall i | i in w'.workers && i != id
      ensures i in w.workers && w'.workers[i] == w.workers[i]
    {
      assert i in w'.workers - {id};
      assert (w'.workers - {id})[i] == (w.workers - {id})[i];
    }
    forall i | i in w'.workers && HasClaim(w'.workers[i].pc)
      ensures ClaimOk(w', w'.workers[i].pc) && PcOk(w', w'.workers[i].pc)
    {
      if i != id {
        assert ClaimOk(w, w.workers[i].pc) && PcOk(w, w.workers[i].pc);
        assert Undisturbed(w, w', w.workers[i].pc.claim.attempt.number);
      }
    }
  }

  /** A worker that keeps its claim, or gives it up, without touching any other attempt. */
  lemma ActorStep(w: World, w': World, id: nat)
    requires WorkersOk(w) && id in w.workers && HasClaim(w.workers[id].pc) && id in w'.workers
    requires w'.workers == w.workers[id := w'.workers[id]]
    requires forall n: nat | n != w.workers[id].pc.claim.attempt.number :: Undisturbed(w, w', n)
    requires HasClaim(w'.workers[id].pc) ==>
               && w'.workers[id].pc.claim == w.workers[id].pc.claim
               && ClaimOk(w', w'.workers[id].pc) && PcOk(w', w'.workers[id].pc)
    ensures WorkersOk(w')
  {
    OthersKept(w, w', id);
  }

  // ---------- Each step keeps safety ----------

  /** Settling the lease on record, by receipt or by expiry, with `job` as the result. */
  lemma SettleKeeps(w: World, job: Job)
    requires Sound(w) && w.job.lease.Some?
    requires job.identity == w.job.identity && job.attemptCount == w.job.attemptCount && job.lease.None?
    requires job.state.Uncertain? || Terminal(job.state) || job.state.RetryableFailed?
    requires w.job.lease.value.phase.HeldMutationStarted? ==> !job.state.RetryableFailed?
    ensures var w' := w.(job := job, history := w.history + [EndedBy(w, job.state)]);
            && Orderly(w'.history) && JobOk(w') && ReceiptsOk(w')
            && forall n: nat :: Undisturbed(w, w', n)
  {
    Append(w.history, EndedBy(w, job.state));
  }

  /** The job and its history move on to those of `m` while the acting worker ends without a claim. */
  lemma JobMoved(w: World, m: World, id: nat, k: Worker)
    requires Sound(w) && m.workers == w.workers && !HasClaim(k.pc)
    requires Orderly(m.history) && JobOk(m) && ReceiptsOk(m)
    requires forall n: nat :: Undisturbed(w, m, n)
    ensures Sound(m.(workers := m.workers[id := k]))
  {
    var w' := m.(workers := m.workers[id := k]);
    forall n: nat ensures Undisturbed(w, w', n) {
      assert Undisturbed(w, m, n);
    }
    OthersKept(w, w', id);
  }

  /** Only one worker changed, and it holds no claim. */
  lemma OnlyWorker(w: World, id: nat, k: Worker)
    requires Sound(w) && !HasClaim(k.pc)
    ensures Sound(w.(workers := w.workers[id := k]))
  {
    JobMoved(w, w, id, k);
  }

  lemma FinalizeKeeps(s: Setting, w: World, id: nat)
    requires Sound(w) && id in w.workers && w.workers[id].pc.ToFinalize?
    ensures Sound(StepFinalize(s, w, id, w.workers[id], w.workers[id].pc.receipt))
  {
    var k := w.workers[id];
    assert ClaimOk(w, k.pc) && PcOk(w, k.pc);
    match Finalize(s.variant, w.job, k.pc.receipt, w.now)
    case Applied(job) =>
      SettleKeeps(w, job);
      JobMoved(w, w.(job := job, history := w.history + [EndedBy(w, job.state)]), id, k.Returned());
    case AlreadyApplied => OnlyWorker(w, id, k.Returned());
    case _ => OnlyWorker(w, id, k.(pc := Done));
  }

  lemma RecoverKeeps(s: Setting, w: World, id: nat)
    requires Sound(w) && id in w.workers && w.workers[id].pc.ToClaim?
    requires ClaimJob(s.variant, w.job, w.receipts, w.workers[id].name, w.now, s.leaseSeconds).Recovered?
    ensures Sound(StepClaim(s, w, id, w.workers[id]))
  {
    var k := w.workers[id];
    var job := ClaimJob(s.variant, w.job, w.receipts, k.name, w.now, s.leaseSeconds).job;
    SettleKeeps(w, job);
    JobMoved(w, w.(job := job, history := w.history + [EndedBy(w, job.state)]), id, k.Returned());
  }

  lemma UndisturbedTransitive(w: World, m: World, w': World, n: nat)
    requires Undisturbed(w, m, n) && Undisturbed(m, w', n)
    ensures Undisturbed(w, w', n)
  {
  }

  /** The job as a granted claim finds it: without the lapsed lease. */
  function Settled(s: Setting, w: World): World {
    if w.job.lease.None? then w
    else
      var job := Expire(s.variant, w.job, w.now);
      w.(job := job, history := w.history + [EndedBy(w, job.state)])
  }

  lemma SettledKeeps(s: Setting, w: World)
    requires Sound(w) && (w.job.lease.None? ==> Claimable(w.job.state))
    ensures var m := Settled(s, w);
            && Orderly(m.history) && JobOk(m) && ReceiptsOk(m) && m.job.lease.None? && Claimable(m.job.state)
            && m.job.attemptCount == w.job.attemptCount && m.workers == w.workers
            && forall n: nat :: Undisturbed(w, m, n)
  {
    if w.job.lease.Some? {
      SettleKeeps(w, Expire(s.variant, w.job, w.now));
    }
  }

  function Handed(m: World, granted: Claiming, id: nat, k: Worker): World
    requires granted.Granted?
  {
    m.(job := granted.job, workers := m.workers[id := k.(pc := ToDeliver(granted.claim))],
       history := m.history + [Claimed(granted.claim.attempt.number, granted.claim.queryOnly)])
  }

  /** Handing out a claim on a job without a lease keeps the job in order. */
  lemma GrantJobOk(w: World, id: nat, k: Worker, now: int, leaseSeconds: int)
    requires Orderly(w.history) && JobOk(w) && ReceiptsOk(w) && w.job.lease.None? && Claimable(w.job.state)
    ensures var w' := Handed(w, Grant(w.job, k.name, now, leaseSeconds), id, k);
            Orderly(w'.history) && JobOk(w') && ReceiptsOk(w')
  {
    var granted := Grant(w.job, k.name, now, leaseSeconds);
    Append(w.history, Claimed(granted.claim.attempt.number, granted.claim.queryOnly));
  }

  lemma GrantKeeps(w: World, id: nat, k: Worker, now: int, leaseSeconds: int)
    requires Orderly(w.history) && JobOk(w) && ReceiptsOk(w) && w.job.lease.None? && Claimable(w.job.state)
    ensures var granted := Grant(w.job, k.name, now, leaseSeconds);
            var w' := Handed(w, granted, id, k);
            && Orderly(w'.history) && JobOk(w') && ReceiptsOk(w')
            && ClaimOk(w', ToDeliver(granted.claim)) && PcOk(w', ToDeliver(granted.claim))
            && forall n: nat | n <= w.job.attemptCount :: Undisturbed(w, w', n)
  {
    GrantJobOk(w, id, k, now, leaseSeconds);
    var granted := Grant(w.job, k.name, now, leaseSeconds);
    var n := granted.claim.attempt.number;
    assert NumberOf(Announced(n)) == n;
  }

  lemma GrantedStep(s: Setting, w: World, id: nat, k: Worker)
    requires w.job.state.Delivering? <==> w.job.lease.Some?
    requires ClaimJob(s.variant, w.job, w.receipts, k.name, w.now, s.leaseSeconds).Granted?
    ensures var m := Settled(s, w);
            StepClaim(s, w, id, k) == Handed(m, Grant(m.job, k.name, w.now, s.leaseSeconds), id, k)
  {
    assert w.history + [] == w.history;
  }

  lemma HandedKeeps(w: World, m: World, granted: Claiming, id: nat, k: Worker)
    requires Sound(w) && id in w.workers && m.workers == w.workers && m.job.attemptCount == w.job.attemptCount
    requires forall n: nat :: Undisturbed(w, m, n)
    requires granted.Granted? && granted.claim.attempt.number == w.job.attemptCount + 1
    requires var w' := Handed(m, granted, id, k);
             && Orderly(w'.history) && JobOk(w') && ReceiptsOk(w')
             && ClaimOk(w', ToDeliver(granted.claim)) && PcOk(w', ToDeliver(granted.claim))
             && forall n: nat | n <= m.job.attemptCount :: Undisturbed(m, w', n)
    ensures Sound(Handed(m, granted, id, k))
  {
    var w' := Handed(m, granted, id, k);
    forall i | i in w.workers && i != id && HasClaim(w.workers[i].pc)
      ensures Undisturbed(w, w', w.workers[i].pc.claim.attempt.number)
      ensures w.workers[i].pc.claim.attempt.number <= w.job.attemptCount
    {
      assert ClaimOk(w, w.workers[i].pc);
      UndisturbedTransitive(w, m, w', w.workers[i].pc.claim.attempt.number);
    }
    OthersKept(w, w', id);
  }

  lemma GrantedKeeps(s: Setting, w: World, id: nat)
    requires Sound(w) && id in w.workers && w.workers[id].pc.ToClaim?
    requires ClaimJob(s.variant, w.job, w.receipts, w.workers[id].name, w.now, s.leaseSeconds).Granted?
    ensures Sound(StepClaim(s, w, id, w.workers[id]))
  {
    var k := w.workers[id];
    GrantedStep(s, w, id, k);
    SettledKeeps(s, w);
    var m := Settled(s, w);
    GrantKeeps(m, id, k, w.now, s.leaseSeconds);
    HandedKeeps(w, m, Grant(m.job, k.name, w.now, s.leaseSeconds), id, k);
  }

  lemma ClaimKeeps(s: Setting, w: World, id: nat)
    requires Sound(w) && id in w.workers && w.workers[id].pc.ToClaim?
    ensures Sound(StepClaim(s, w, id, w.workers[id]))
  {
    var claiming := ClaimJob(s.variant, w.job, w.receipts, w.workers[id].name, w.now, s.leaseSeconds);
    if claiming.Granted? {
      GrantedKeeps(s, w, id);
    } else if claiming.Recovered? {
      RecoverKeeps(s, w, id);
    } else {
      OnlyWorker(w, id, w.workers[id].Returned());
      OnlyWorker(w, id, w.workers[id].(pc := Done));
    }
  }

  lemma DeliverKeeps(w: World, id: nat, seen: Surroundings)
    requires Sound(w) && id in w.workers && w.workers[id].pc.ToDeliver?
    ensures Sound(StepDeliver(w, id, w.workers[id], w.workers[id].pc.claim, seen))
  {
    var k := w.workers[id];
    var verdict := BeforeMutation(w.job.identity, k.pc.claim.queryOnly, seen);
    assert verdict.Announce? ==> !k.pc.claim.queryOnly;
    assert !verdict.Announce? ==> EndsAttempt(BeforeOutcome(verdict).state);
    assert ClaimOk(w, k.pc) && PcOk(w, k.pc);
    OthersKept(w, StepDeliver(w, id, k, k.pc.claim, seen), id);
  }

  /** The job once a mutation is announced for its current, not query-only, lease. */
  lemma MarkedJobOk(w: World, job: Job, a: AttemptId)
    requires Orderly(w.history) && JobOk(w) && ReceiptsOk(w) && MarkStarted(w.job, a, w.now) == Some(job)
    requires w.job.lease.value.phase.HeldClaimed? && Announced(a.number) !in w.history && a !in w.receipts
    ensures var w' := w.(job := job, history := w.history + [Announced(a.number)]);
            Orderly(w'.history) && JobOk(w') && ReceiptsOk(w')
  {
    Append(w.history, Announced(a.number));
  }

  lemma MarkedClaimOk(w: World, id: nat, k: Worker)
    requires id in w.workers && w.workers[id] == k && k.pc.ToAnnounce? && JobOk(w)
    requires ClaimOk(w, k.pc) && PcOk(w, k.pc) && MarkStarted(w.job, k.pc.claim.attempt, w.now).Some?
    ensures w.job.lease.value.phase.HeldClaimed? && Announced(k.pc.claim.attempt.number) !in w.history
    ensures var w' := StepAnnounce(w, id, k, k.pc.claim); ClaimOk(w', w'.workers[id].pc) && PcOk(w', w'.workers[id].pc)
  {
  }

  lemma AnnounceUndisturbed(w: World, id: nat, k: Worker)
    requires k.pc.ToAnnounce?
    ensures forall n: nat | n != k.pc.claim.attempt.number :: Undisturbed(w, StepAnnounce(w, id, k, k.pc.claim), n)
  {
  }

  lemma AnnouncedSafe(w: World, w': World, id: nat, job: Job)
    requires Sound(w) && id in w.workers && HasClaim(w.workers[id].pc) && id in w'.workers
    requires w'.workers == w.workers[id := w'.workers[id]] && HasClaim(w'.workers[id].pc)
    requires w'.workers[id].pc.claim == w.workers[id].pc.claim
    requires ClaimOk(w', w'.workers[id].pc) && PcOk(w', w'.workers[id].pc)
    requires forall n: nat | n != w.workers[id].pc.claim.attempt.number :: Undisturbed(w, w', n)
    requires var m := w.(job := job, history := w'.history);
             Orderly(m.history) && JobOk(m) && ReceiptsOk(m) && w' == m.(workers := w'.workers)
    ensures Sound(w')
  {
    ActorStep(w, w', id);
  }

  lemma AnnounceRefusedKeeps(w: World, id: nat)
    requires Sound(w) && id in w.workers && w.workers[id].pc.ToAnnounce?
    requires MarkStarted(w.job, w.workers[id].pc.claim.attempt, w.now).None?
    ensures Sound(StepAnnounce(w, id, w.workers[id], w.workers[id].pc.claim))
  {
    var k := w.workers[id];
    assert ClaimOk(w, k.pc) && PcOk(w, k.pc);
    AnnounceUndisturbed(w, id, k);
    ActorStep(w, StepAnnounce(w, id, k, k.pc.claim), id);
  }

  lemma AnnounceMarkedKeeps(w: World, id: nat, k: Worker, job: Job)
    requires Sound(w) && id in w.workers && w.workers[id] == k && k.pc.ToAnnounce?
    requires MarkStarted(w.job, k.pc.claim.attempt, w.now) == Some(job)
    ensures Sound(StepAnnounce(w, id, k, k.pc.claim))
  {
    assert ClaimOk(w, k.pc) && PcOk(w, k.pc);
    AnnounceUndisturbed(w, id, k);
    MarkedClaimOk(w, id, k);
    MarkedJobOk(w, job, k.pc.claim.attempt);
    AnnouncedSafe(w, StepAnnounce(w, id, k, k.pc.claim), id, job);
  }

  lemma AnnounceKeeps(w: World, id: nat)
    requires Sound(w) && id in w.workers && w.workers[id].pc.ToAnnounce?
    ensures Sound(StepAnnounce(w, id, w.workers[id], w.workers[id].pc.claim))
  {
    match MarkStarted(w.job, w.workers[id].pc.claim.attempt, w.now)
    case None => AnnounceRefusedKeeps(w, id);
    case Some(job) => AnnounceMarkedKeeps(w, id, w.workers[id], job);
  }

  lemma PostKeeps(w: World, id: nat, seen: Surroundings)
    requires Sound(w) && id in w.workers && w.workers[id].pc.ToPost?
    ensures Sound(StepPost(w, id, w.workers[id], w.workers[id].pc.claim, seen))
  {
    var k := w.workers[id];
    assert ClaimOk(w, k.pc) && PcOk(w, k.pc);
    AfterMutationIsSafe(w.job.identity, seen);
    Append(w.history, Posting(k.pc.claim.attempt.number, LeasedTo(w.job, k.pc.claim.attempt)));
    OthersKept(w, StepPost(w, id, k, k.pc.claim, seen), id);
  }

  lemma RecordUndisturbed(w: World, id: nat, k: Worker)
    requires k.pc.ToRecord?
    ensures forall n: nat | n != k.pc.claim.attempt.number ::
              Undisturbed(w, StepRecord(w, id, k, k.pc.claim, k.pc.outcome, k.pc.started), n)
  {
  }

  lemma RecordKeeps(w: World, id: nat)
    requires Sound(w) && id in w.workers && w.workers[id].pc.ToRecord?
    ensures Sound(StepRecord(w, id, w.workers[id], w.workers[id].pc.claim, w.workers[id].pc.outcome, w.workers[id].pc.started))
  {
    var k := w.workers[id];
    assert ClaimOk(w, k.pc) && PcOk(w, k.pc);
    if k.pc.claim.attempt !in w.receipts {
      RecordUndisturbed(w, id, k);
    }
    ActorStep(w, StepRecord(w, id, k, k.pc.claim, k.pc.outcome, k.pc.started), id);
  }

  lemma ConfirmedKeeps(w: World, evidence: nat)
    requires Sound(w) && w.job.state.Uncertain? && Grounded(w.history, evidence) && AnnouncedEnded(w.history)
    ensures var m := w.(job := ConfirmAbsent(w.job, w.now), history := w.history + [ConfirmedAbsent(evidence)]);
            Orderly(m.history) && JobOk(m) && ReceiptsOk(m) && forall n: nat :: Undisturbed(w, m, n)
  {
    Append(w.history, ConfirmedAbsent(evidence));
  }

  lemma ConfirmKeeps(s: Setting, w: World, id: nat)
    requires Sound(w) && id in w.workers && w.workers[id].pc.ToConfirm? && Grounded(w.history, w.workers[id].pc.evidence)
    requires w.job.state.Uncertain? ==> AnnouncedEnded(w.history)
    ensures Sound(StepConfirm(s, w, id, w.workers[id], w.workers[id].pc.evidence))
  {
    var k, evidence := w.workers[id].(pc := Done), w.workers[id].pc.evidence;
    if StillConfirmable(s, w.job, evidence) {
      ConfirmedKeeps(w, evidence);
      JobMoved(w, w.(job := ConfirmAbsent(w.job, w.now), history := w.history + [ConfirmedAbsent(evidence)]), id, k);
    } else {
      OnlyWorker(w, id, k);
    }
  }

  lemma OverKeeps(w: World, over: Entry)
    requires Sound(w) && over.QuarantineOver? && over.due <= over.at
    ensures var m := w.(history := w.history + [over]);
            && Orderly(m.history) && JobOk(m) && ReceiptsOk(m) && forall n: nat :: Undisturbed(w, m, n)
  {
    Append(w.history, over);
  }

  lemma ResolveKeeps(w: World, id: nat)
    requires Sound(w) && id in w.workers && w.workers[id].pc.ToResolve?
    ensures Sound(StepResolve(w, id, w.workers[id]))
  {
    var k := w.workers[id];
    if QuarantineElapsed(w.job, w.now) {
      var over := QuarantineOver(w.job.uncertainSince.value + w.job.identity.quarantineSeconds, w.now);
      OverKeeps(w, over);
      JobMoved(w, w.(history := w.history + [over]), id, k.(pc := ToClaim));
      assert StepResolve(w, id, k) == w.(history := w.history + [over]).(workers := w.workers[id := k.(pc := ToClaim)]);
    } else {
      OnlyWorker(w, id, k.(pc := Done));
    }
  }

  lemma ClashKeeps(w: World, identity: Identity)
    requires Sound(w) && w.job.identity != identity
    ensures Sound(w.(job := Enqueue(Some(w.job), identity, w.now).job, history := w.history + [Clash]))
  {
    Append(w.history, Clash);
    var w' := w.(job := Enqueue(Some(w.job), identity, w.now).job, history := w.history + [Clash]);
    forall i | i in w.workers && HasClaim(w.workers[i].pc) ensures ClaimOk(w', w'.workers[i].pc) && PcOk(w', w'.workers[i].pc) {
      assert ClaimOk(w, w.workers[i].pc) && PcOk(w, w.workers[i].pc);
    }
  }
}
