/** What a confirmed absence and an announced mutation leave behind, in every run. */
module DeliveryEvidence {
  import opened Common
  import opened Delivery
  import opened NotionAdapter
  import opened DeliveryRuns
  import opened DeliverySafety

  // ---------- What is kept besides the order of the history ----------

  /** Only a query-only attempt reports absence, and then as uncertain; without a query it takes an announcement to
      become uncertain. */
  predicate Telling(outcome: Outcome, queryOnly: bool, started: bool) {
    && (outcome.code == ABSENT_CODE ==> queryOnly && outcome.state.Uncertain?)
    && (outcome.state.Uncertain? && !queryOnly ==> started)
  }

  predicate ReceiptsTell(w: World) {
    forall a | a in w.receipts ::
      var r := w.receipts[a];
      && Telling(r.outcome, r.queryOnly, r.mutationStarted)
      && Claimed(a.number, r.queryOnly) in w.history && (r.mutationStarted ==> Announced(a.number) in w.history)
  }

  predicate RecordersTell(w: World) {
    forall i | i in w.workers && w.workers[i].pc.ToRecord? ::
      var pc := w.workers[i].pc; Telling(pc.outcome, pc.claim.queryOnly, pc.started)
  }

  /** A job whose last receipt shows absence has that attempt's end on record. */
  predicate LastTells(w: World) {
    w.job.last.Some? ==>
      var a := w.job.last.value.attempt;
      a in w.receipts && (w.receipts[a].outcome.code == ABSENT_CODE ==> Ended(a.number, true, Uncertain, true) in w.history)
  }

  /** An uncertain job is so by the receipt of its latest attempt. */
  predicate UncertainTells(w: World) {
    w.job.state.Uncertain? ==> w.job.last.Some? && w.job.last.value.attempt.number == w.job.attemptCount
  }

  /** An announced attempt holds the lease, or ended uncertain, or finished the job; and only announced attempts end so. */
  predicate AnnouncedTell(w: World) {
    && (forall x | x in w.history && x.Announced? ::
          || Terminal(w.job.state)
          || (w.job.lease.Some? && w.job.lease.value.attempt.number == x.number)
          || Ended(x.number, false, Uncertain, false) in w.history)
    && (forall x | x in w.history && x.Ended? && !x.queryOnly && x.state.Uncertain? :: Announced(x.number) in w.history)
    && (w.job.lease.Some? && w.job.lease.value.phase.HeldMutationStarted? ==>
          Announced(w.job.lease.value.attempt.number) in w.history)
    && (w.job.lease.Some? && Announced(w.job.lease.value.attempt.number) in w.history ==>
          w.job.lease.value.phase.HeldMutationStarted?)
  }

  ghost predicate ClaimedSince(h: seq<Entry>, q: nat) {
    exists c :: q < c < |h| && h[c].Claimed?
  }

  /** The quarantine was over at `q`, when the job had no lease. */
  ghost predicate Waiting(w: World, q: nat) {
    q < |w.history| && w.history[q].QuarantineOver? && (w.job.lease.Some? ==> ClaimedSince(w.history, q))
  }

  /** The quarantine was over at `q`, and an attempt was claimed since unless the job is finished. */
  ghost predicate Attempted(w: World, q: nat) {
    q < |w.history| && w.history[q].QuarantineOver? && (Terminal(w.job.state) || ClaimedSince(w.history, q))
  }

  ghost predicate ResolverOk(w: World, k: Worker) {
    match k.pc
    case ToResolve => true
    case Done => true
    case ToClaim => k.resolving ==> exists q :: Waiting(w, q)
    case ToCheckEvidence => exists q :: Attempted(w, q)
    case ToConfirm(evidence) => Grounded(w.history, evidence)
    case _ => k.resolving ==> exists q :: Attempted(w, q)
  }

  ghost predicate ResolversOk(w: World) {
    forall i | i in w.workers :: ResolverOk(w, w.workers[i])
  }

  /** What is kept besides soundness: about the job and its history, and about the workers. */
  ghost predicate Shown(w: World) {
    ReceiptsTell(w) && LastTells(w) && UncertainTells(w) && AnnouncedTell(w)
  }

  ghost predicate Safe(w: World) {
    Sound(w) && Shown(w) && RecordersTell(w) && ResolversOk(w)
  }

  // ---------- Outcomes ----------

  lemma BeforeTells(id: Identity, queryOnly: bool, seen: Surroundings)
    requires !BeforeMutation(id, queryOnly, seen).Announce?
    ensures Telling(BeforeOutcome(BeforeMutation(id, queryOnly, seen)), queryOnly, false)
  {
  }

  lemma AfterTells(id: Identity, seen: Surroundings)
    ensures Telling(AfterMutation(id, seen), false, true)
  {
  }

  // ---------- A step of one worker leaves the others alone ----------

  /** The history grew, a finished job stays finished, and a new lease comes with a new claim. */
  ghost predicate Forward(w: World, w': World) {
    && w.history <= w'.history
    && (Terminal(w.job.state) ==> Terminal(w'.job.state))
    && (w.job.lease.None? && w'.job.lease.Some? ==> exists c :: |w.history| <= c < |w'.history| && w'.history[c].Claimed?)
  }

  lemma GroundedLater(h: seq<Entry>, h': seq<Entry>, evidence: nat)
    requires Grounded(h, evidence) && h <= h'
    ensures Grounded(h', evidence)
  {
    var q, c :| 0 <= q < c < |h| && h[q].QuarantineOver? && h[c] == Claimed(evidence, true);
    assert h'[q] == h[q] && h'[c] == h[c];
  }

  lemma ClaimedLater(h: seq<Entry>, h': seq<Entry>, q: nat)
    requires ClaimedSince(h, q) && h <= h'
    ensures ClaimedSince(h', q)
  {
    var c :| q < c < |h| && h[c].Claimed?;
    assert h'[c] == h[c];
  }

  lemma AttemptedLater(w: World, w': World, q: nat)
    requires Attempted(w, q) && Forward(w, w')
    ensures Attempted(w', q)
  {
    if ClaimedSince(w.history, q) {
      ClaimedLater(w.history, w'.history, q);
    }
  }

  lemma WaitingLater(w: World, w': World, q: nat)
    requires Waiting(w, q) && Forward(w, w')
    ensures Waiting(w', q)
  {
    if ClaimedSince(w.history, q) {
      ClaimedLater(w.history, w'.history, q);
    } else if w'.job.lease.Some? {
      var c :| |w.history| <= c < |w'.history| && w'.history[c].Claimed?;
      assert ClaimedSince(w'.history, q);
    }
  }

  lemma ResolverLater(w: World, w': World, k: Worker)
    requires ResolverOk(w, k) && Forward(w, w')
    ensures ResolverOk(w', k)
  {
    if k.pc.ToConfirm? {
      GroundedLater(w.history, w'.history, k.pc.evidence);
    } else if k.pc.ToClaim? && k.resolving {
      var q :| Waiting(w, q);
      WaitingLater(w, w', q);
    } else if k.pc.ToCheckEvidence? || (k.resolving && HasClaim(k.pc)) {
      var q :| Attempted(w, q);
      AttemptedLater(w, w', q);
    }
  }

  predicate RecorderTells(pc: Pc) {
    pc.ToRecord? ==> Telling(pc.outcome, pc.claim.queryOnly, pc.started)
  }

  lemma WorkersTell(w: World, w': World, id: nat)
    requires RecordersTell(w) && ResolversOk(w) && Forward(w, w')
    requires id in w'.workers && w'.workers == w.workers[id := w'.workers[id]]
    requires ResolverOk(w', w'.workers[id]) && RecorderTells(w'.workers[id].pc)
    ensures RecordersTell(w') && ResolversOk(w')
  {
    forall i | i in w'.workers ensures ResolverOk(w', w'.workers[i]) {
      if i != id {
        assert ResolverOk(w, w.workers[i]);
        ResolverLater(w, w', w.workers[i]);
      }
    }
  }

  // ---------- Each step keeps what the evidence shows ----------

  lemma ResolveTells(w: World, id: nat)
    requires Safe(w) && id in w.workers && w.workers[id].pc.ToResolve?
    ensures Safe(StepResolve(w, id, w.workers[id]))
  {
    ResolveKeeps(w, id);
    var w' := StepResolve(w, id, w.workers[id]);
    if QuarantineElapsed(w.job, w.now) {
      assert Waiting(w', |w.history|);
    }
    WorkersTell(w, w', id);
  }

  lemma DeliverTells(w: World, id: nat, seen: Surroundings)
    requires Safe(w) && id in w.workers && w.workers[id].pc.ToDeliver?
    ensures Safe(StepDeliver(w, id, w.workers[id], w.workers[id].pc.claim, seen))
  {
    DeliverKeeps(w, id, seen);
    var k, queryOnly := w.workers[id], w.workers[id].pc.claim.queryOnly;
    if !BeforeMutation(w.job.identity, queryOnly, seen).Announce? {
      BeforeTells(w.job.identity, queryOnly, seen);
    }
    var w' := StepDeliver(w, id, k, k.pc.claim, seen);
    ResolverLater(w, w', k);
    WorkersTell(w, w', id);
  }

  /** The job once a mutation is announced for its lease. */
  lemma MarkedShown(w: World, job: Job, a: AttemptId)
    requires Shown(w) && JobOk(w) && MarkStarted(w.job, a, w.now) == Some(job)
    ensures Shown(w.(job := job, history := w.history + [Announced(a.number)]))
  {
  }

  lemma AnnounceTells(w: World, id: nat)
    requires Safe(w) && id in w.workers && w.workers[id].pc.ToAnnounce?
    ensures Safe(StepAnnounce(w, id, w.workers[id], w.workers[id].pc.claim))
  {
    AnnounceKeeps(w, id);
    var k := w.workers[id];
    var w' := StepAnnounce(w, id, k, k.pc.claim);
    var marked := MarkStarted(w.job, k.pc.claim.attempt, w.now);
    if marked.Some? {
      MarkedShown(w, marked.value, k.pc.claim.attempt);
    }
    ResolverLater(w, w', k);
    WorkersTell(w, w', id);
  }

  lemma PostTells(w: World, id: nat, seen: Surroundings)
    requires Safe(w) && id in w.workers && w.workers[id].pc.ToPost?
    ensures Safe(StepPost(w, id, w.workers[id], w.workers[id].pc.claim, seen))
  {
    PostKeeps(w, id, seen);
    var k := w.workers[id];
    var w' := StepPost(w, id, k, k.pc.claim, seen);
    AfterTells(w.job.identity, seen);
    ResolverLater(w, w', k);
    WorkersTell(w, w', id);
  }

  lemma RecordedShown(w: World, receipt: Receipt)
    requires Shown(w) && receipt.attempt !in w.receipts
    requires Telling(receipt.outcome, receipt.queryOnly, receipt.mutationStarted)
    requires Claimed(receipt.attempt.number, receipt.queryOnly) in w.history
    requires receipt.mutationStarted ==> Announced(receipt.attempt.number) in w.history
    ensures Shown(w.(receipts := w.receipts[receipt.attempt := receipt]))
  {
  }

  lemma RecordTells(w: World, id: nat)
    requires Safe(w) && id in w.workers && w.workers[id].pc.ToRecord?
    ensures Safe(StepRecord(w, id, w.workers[id], w.workers[id].pc.claim, w.workers[id].pc.outcome, w.workers[id].pc.started))
  {
    RecordKeeps(w, id);
    var k := w.workers[id];
    assert ClaimOk(w, k.pc) && PcOk(w, k.pc);
    var w' := StepRecord(w, id, k, k.pc.claim, k.pc.outcome, k.pc.started);
    RecordedShown(w, ReceiptOf(w, k, k.pc.claim, k.pc.outcome, k.pc.started));
    ResolverLater(w, w', k);
    WorkersTell(w, w', id);
  }

  /** The lease on record is settled by its receipt. */
  function Closed(s: Setting, w: World): World
    requires w.job.lease.Some? && w.job.lease.value.attempt in w.receipts
  {
    var job := ApplyReceipt(s.variant, w.job, w.receipts[w.job.lease.value.attempt], w.now);
    w.(job := job, history := w.history + [EndedBy(w, job.state)])
  }

  lemma ClosedShown(s: Setting, w: World)
    requires Sound(w) && Shown(w) && w.job.lease.Some? && w.job.lease.value.attempt in w.receipts
    ensures Shown(Closed(s, w)) && Forward(w, Closed(s, w))
  {
  }

  /** A worker whose attempt has returned, with a lease on record until now. */
  lemma ReturnedTells(w: World, m: World, id: nat)
    requires Safe(w) && id in w.workers && m.workers == w.workers && Forward(w, m) && Shown(m)
    requires w.workers[id].resolving ==> exists q :: Attempted(m, q)
    requires Sound(m.(workers := m.workers[id := w.workers[id].Returned()]))
    ensures Safe(m.(workers := m.workers[id := w.workers[id].Returned()]))
  {
    var w' := m.(workers := m.workers[id := w.workers[id].Returned()]);
    if w.workers[id].resolving {
      var q :| Attempted(m, q);
      assert Attempted(w', q);
    }
    WorkersTell(w, w', id);
  }

  /** The job and its history move on while the acting worker ends. */
  lemma MovedTells(w: World, m: World, id: nat, k: Worker)
    requires Safe(w) && id in w.workers && k.pc.Done? && m.workers == w.workers
    requires Shown(m) && Forward(w, m) && Sound(m.(workers := m.workers[id := k]))
    ensures Safe(m.(workers := m.workers[id := k]))
  {
    WorkersTell(w, m.(workers := m.workers[id := k]), id);
  }

  lemma FinalizeTells(s: Setting, w: World, id: nat)
    requires Safe(w) && id in w.workers && w.workers[id].pc.ToFinalize?
    ensures Safe(StepFinalize(s, w, id, w.workers[id], w.workers[id].pc.receipt))
  {
    FinalizeKeeps(s, w, id);
    var k := w.workers[id];
    assert ClaimOk(w, k.pc) && PcOk(w, k.pc);
    match Finalize(s.variant, w.job, k.pc.receipt, w.now)
    case Applied(job) =>
      ClosedShown(s, w);
      ResolverLater(w, Closed(s, w), k);
      ReturnedTells(w, Closed(s, w), id);
    case AlreadyApplied => ReturnedTells(w, w, id);
    case _ => MovedTells(w, w, id, k.(pc := Done));
  }

  lemma WaitedFor(w: World, q: nat)
    requires JobOk(w) && Waiting(w, q) && (w.job.lease.Some? || !Claimable(w.job.state))
    ensures Attempted(w, q)
  {
  }

  lemma RecoverTells(s: Setting, w: World, id: nat)
    requires Safe(w) && id in w.workers && w.workers[id].pc.ToClaim?
    requires ClaimJob(s.variant, w.job, w.receipts, w.workers[id].name, w.now, s.leaseSeconds).Recovered?
    ensures Safe(StepClaim(s, w, id, w.workers[id]))
  {
    ClaimKeeps(s, w, id);
    ClosedShown(s, w);
    if w.workers[id].resolving {
      var q :| Waiting(w, q);
      WaitedFor(w, q);
      AttemptedLater(w, Closed(s, w), q);
    }
    ReturnedTells(w, Closed(s, w), id);
  }

  lemma RefusedTells(s: Setting, w: World, id: nat)
    requires Safe(w) && id in w.workers && w.workers[id].pc.ToClaim?
    requires ClaimJob(s.variant, w.job, w.receipts, w.workers[id].name, w.now, s.leaseSeconds).Refused?
    ensures Safe(StepClaim(s, w, id, w.workers[id]))
  {
    ClaimKeeps(s, w, id);
    if w.workers[id].resolving {
      var q :| Waiting(w, q);
      WaitedFor(w, q);
    }
    ReturnedTells(w, w, id);
  }

  /** Everything but the attempt behind an uncertain job, which an expired lease leaves without a receipt. */
  ghost predicate ShownButLast(w: World) {
    ReceiptsTell(w) && LastTells(w) && AnnouncedTell(w)
  }

  lemma SettledShown(s: Setting, w: World)
    requires Sound(w) && Shown(w) && (w.job.lease.Some? ==> w.job.lease.value.attempt !in w.receipts)
    ensures ShownButLast(Settled(s, w))
  {
  }

  lemma HandedShown(m: World, id: nat, k: Worker, now: int, leaseSeconds: int)
    requires ShownButLast(m) && JobOk(m) && m.job.lease.None? && Claimable(m.job.state)
    ensures Shown(Handed(m, Grant(m.job, k.name, now, leaseSeconds), id, k))
  {
    var n := m.job.attemptCount + 1;
    assert NumberOf(Announced(n)) == n;
  }

  /** A resolver that was granted its claim. */
  lemma GrantedResolver(w: World, w': World, k: Worker, k': Worker)
    requires ResolverOk(w, k) && k.pc.ToClaim? && k'.resolving == k.resolving && k'.pc.ToDeliver?
    requires Forward(w, w') && JobOk(w') && w'.job.lease.Some?
    ensures ResolverOk(w', k')
  {
    if k.resolving {
      var q :| Waiting(w, q);
      WaitingLater(w, w', q);
      WaitedFor(w', q);
    }
  }

  lemma GrantedShown(s: Setting, w: World, id: nat)
    requires Safe(w) && id in w.workers && w.workers[id].pc.ToClaim?
    requires ClaimJob(s.variant, w.job, w.receipts, w.workers[id].name, w.now, s.leaseSeconds).Granted?
    ensures var w' := StepClaim(s, w, id, w.workers[id]); Shown(w') && Forward(w, w')
  {
    var k := w.workers[id];
    GrantedStep(s, w, id, k);
    SettledShown(s, w);
    SettledKeeps(s, w);
    var m := Settled(s, w);
    HandedShown(m, id, k, w.now, s.leaseSeconds);
    var w' := StepClaim(s, w, id, k);
    assert w'.history[|w'.history| - 1].Claimed?;
  }

  lemma GrantedTells(s: Setting, w: World, id: nat)
    requires Safe(w) && id in w.workers && w.workers[id].pc.ToClaim?
    requires ClaimJob(s.variant, w.job, w.receipts, w.workers[id].name, w.now, s.leaseSeconds).Granted?
    ensures Safe(StepClaim(s, w, id, w.workers[id]))
  {
    ClaimKeeps(s, w, id);
    GrantedShown(s, w, id);
    var w' := StepClaim(s, w, id, w.workers[id]);
    GrantedResolver(w, w', w.workers[id], w'.workers[id]);
    WorkersTell(w, w', id);
  }

  lemma ClaimTells(s: Setting, w: World, id: nat)
    requires Safe(w) && id in w.workers && w.workers[id].pc.ToClaim?
    ensures Safe(StepClaim(s, w, id, w.workers[id]))
  {
    match ClaimJob(s.variant, w.job, w.receipts, w.workers[id].name, w.now, s.leaseSeconds)
    case Granted(_, _) => GrantedTells(s, w, id);
    case Recovered(_) => RecoverTells(s, w, id);
    case Refused => RefusedTells(s, w, id);
    case ForeignReceipt =>
  }

  /** Absence recorded for a job whose quarantine was over at `q` is the end of an attempt claimed after `q`. */
  lemma AbsenceIsGrounded(w: World, q: nat)
    requires Safe(w) && Attempted(w, q) && AbsenceRecorded(w.job, w.receipts)
    ensures Grounded(w.history, w.job.last.value.attempt.number)
  {
    var h, n := w.history, w.job.last.value.attempt.number;
    var c :| q < c < |h| && h[c].Claimed?;
    EndedWasClaimed(h, n, true, Uncertain, true);
    var mine :| 0 <= mine < |h| && h[mine] == Claimed(n, true);
    assert NumberOf(h[c]) <= n;
    if mine < c {
      AttemptsNeverRepeat(h, mine, c);
    }
    assert q < mine;
  }

  lemma EndedWasClaimed(h: seq<Entry>, n: nat, queryOnly: bool, state: State, absent: bool)
    requires Orderly(h) && Ended(n, queryOnly, state, absent) in h
    ensures Claimed(n, queryOnly) in h
  {
    var e :| 0 <= e < |h| && h[e] == Ended(n, queryOnly, state, absent);
    PrefixOrderly(h, e);
    assert Claimed(n, queryOnly) in h[..e];
  }

  lemma CheckEvidenceTells(w: World, id: nat)
    requires Safe(w) && id in w.workers && w.workers[id].pc.ToCheckEvidence?
    ensures Safe(StepCheckEvidence(w, id, w.workers[id]))
  {
    var w' := StepCheckEvidence(w, id, w.workers[id]);
    OnlyWorker(w, id, w'.workers[id]);
    assert ResolverOk(w, w.workers[id]);
    var q :| Attempted(w, q);
    if AbsenceRecorded(w.job, w.receipts) {
      AbsenceIsGrounded(w, q);
    }
    WorkersTell(w, w', id);
  }

  lemma ConfirmedShown(w: World, evidence: nat)
    requires Shown(w) && w.job.state.Uncertain? && w.job.lease.None?
    ensures Shown(w.(job := ConfirmAbsent(w.job, w.now), history := w.history + [ConfirmedAbsent(evidence)]))
  {
  }

  lemma ConfirmTells(s: Setting, w: World, id: nat)
    requires Safe(w) && id in w.workers && w.workers[id].pc.ToConfirm?
    ensures Safe(StepConfirm(s, w, id, w.workers[id], w.workers[id].pc.evidence))
  {
    assert ResolverOk(w, w.workers[id]);
    ConfirmKeeps(s, w, id);
    var k, evidence := w.workers[id].(pc := Done), w.workers[id].pc.evidence;
    if StillConfirmable(s, w.job, evidence) {
      ConfirmedShown(w, evidence);
      MovedTells(w, w.(job := ConfirmAbsent(w.job, w.now), history := w.history + [ConfirmedAbsent(evidence)]), id, k);
    } else {
      MovedTells(w, w, id, k);
    }
  }

  lemma ActTells(s: Setting, w: World, id: nat, seen: Surroundings)
    requires Safe(w) && id in w.workers
    ensures Safe(Act(s, w, id, seen))
  {
    match w.workers[id].pc
    case ToResolve => ResolveTells(w, id);
    case ToClaim => ClaimTells(s, w, id);
    case ToDeliver(_) => DeliverTells(w, id, seen);
    case ToAnnounce(_) => AnnounceTells(w, id);
    case ToPost(_) => PostTells(w, id, seen);
    case ToRecord(_, _, _) => RecordTells(w, id);
    case ToFinalize(_, _) => FinalizeTells(s, w, id);
    case ToCheckEvidence => CheckEvidenceTells(w, id);
    case ToConfirm(_) => ConfirmTells(s, w, id);
    case Done =>
  }

  lemma SpawnTells(w: World, id: nat, k: Worker)
    requires Safe(w) && id !in w.workers && k.pc == if k.resolving then ToResolve else ToClaim
    ensures Safe(w.(workers := w.workers[id := k]))
  {
    OnlyWorker(w, id, k);
    WorkersTell(w, w.(workers := w.workers[id := k]), id);
  }

  lemma SameTells(w: World, w': World)
    requires Safe(w) && Sound(w') && Shown(w') && Forward(w, w') && forall i | i in w'.workers :: i in w.workers && w'.workers[i] == w.workers[i]
    ensures Safe(w')
  {
    forall i | i in w'.workers ensures ResolverOk(w', w'.workers[i]) {
      assert ResolverOk(w, w.workers[i]);
      ResolverLater(w, w', w.workers[i]);
    }
  }

  lemma CrashTells(w: World, id: nat)
    requires Safe(w)
    ensures Safe(w.(workers := w.workers - {id}))
  {
    SameTells(w, w.(workers := w.workers - {id}));
  }

  lemma ClockTells(w: World, now: int)
    requires Safe(w)
    ensures Safe(w.(now := now))
  {
    SameTells(w, w.(now := now));
  }

  lemma ReenqueueTells(w: World, identity: Identity)
    requires Safe(w) && w.job.identity != identity
    ensures Safe(w.(job := Enqueue(Some(w.job), identity, w.now).job, history := w.history + [Clash]))
  {
    ClashKeeps(w, identity);
    SameTells(w, w.(job := Enqueue(Some(w.job), identity, w.now).job, history := w.history + [Clash]));
  }

  lemma NextTells(s: Setting, w: World, e: Event)
    requires Safe(w)
    ensures Safe(Next(s, w, e))
  {
    match e
    case Work(id, seen) => if id in w.workers { ActTells(s, w, id, seen); }
    case Crash(id) => CrashTells(w, id);
    case Spawn(id, name, resolving) =>
      if id !in w.workers { SpawnTells(w, id, Worker(name, resolving, if resolving then ToResolve else ToClaim)); }
    case Clock(now) => ClockTells(w, now);
    case Reenqueue(identity) => if w.job.identity != identity { ReenqueueTells(w, identity); }
  }

  lemma {:induction false} RunKeeps(s: Setting, w: World, events: seq<Event>)
    requires Safe(w)
    ensures Safe(Run(s, w, events))
    decreases |events|
  {
    if events == [] {
    } else {
      NextTells(s, w, events[0]);
      RunKeeps(s, Next(s, w, events[0]), events[1..]);
    }
  }

  /** Whatever the workers, the clock and the crashes, the history is orderly: announcements and confirmed absences,
      in particular, have what they need before them. */
  lemma EveryRunIsSafe(s: Setting, identity: Identity, now: int, events: seq<Event>)
    requires ValidIdentity(identity) && identity.binding.targetType.TargetNotion?
    ensures Safe(Run(s, Initial(identity, now), events))
  {
    RunKeeps(s, Initial(identity, now), events);
  }
}
