/** The delivery queue object: jobs and attempt receipts on disk, changed under one lock per job. */
module DeliveryQueues {
  import opened Common
  import opened Delivery
  import opened NotionAdapter
  import opened DeliveryRuns
  import opened DeliveryAttempts
  import opened DeliveryOutcomes

  /** Everything one reconciliation round meets at one job. */
  datatype Visit = Visit(seen: Surroundings, times: Times)

  datatype Entry = Entry(job: Job, receipts: map<AttemptId, Receipt>)

  /** What one round leaves of a job; finished jobs are passed over. */
  function Reconciled(s: Setting, e: Entry, worker: string, visit: Visit): Attempted {
    if Terminal(e.job.state) then Attempted(e.job, e.receipts, false, [])
    else AttemptOnJob(s, e.job, e.receipts, worker, visit.seen, visit.times)
  }

  /** A visit leaves a finished job alone, and any other job as one attempt leaves it. */
  lemma VisitLeavesExactly(s: Setting, e: Entry, worker: string, visit: Visit)
    requires s.variant.AsWritten? && ValidJob(e.job) && e.job.identity.binding.targetType.TargetNotion?
    requires visit.times.claimed <= visit.times.recorded && forall a | a in e.receipts :: a.number <= e.job.attemptCount
    ensures var left := Reconciled(s, e, worker, visit);
            var a := AttemptId(e.job.attemptCount + 1, worker, visit.times.claimed);
            && (e.job.state in {NotRequired, Succeeded, PermanentFailed, Conflict, Cancelled} ==>
                  left == Attempted(e.job, e.receipts, false, []))
            && (e.job.state in {Pending, RetryableFailed, Uncertain} ==>
                  && Leaves(e.job, worker, visit.seen, visit.times, e.job.uncertainSince, left, a)
                  && left.receipts == e.receipts[a := left.receipts[a]])
  {
    AttemptLeavesExactly(s, e.job, e.receipts, worker, visit.seen, visit.times);
  }

  /** Where a round stands: the queue, how many listed jobs were visited, and whether the last visit raised. */
  datatype Round = Round(queue: map<string, Entry>, done: nat, stopped: bool)

  function Visited(s: Setting, queue: map<string, Entry>, jobId: string, worker: string, visit: Visit): map<string, Entry>
    requires jobId in queue
  {
    var left := Reconciled(s, queue[jobId], worker, visit);
    queue[jobId := Entry(left.job, left.receipts)]
  }

  /** The rest of a round, from the listed job `n` on. */
  function Rest(s: Setting, queue: map<string, Entry>, order: seq<string>, worker: string, visits: seq<Visit>, n: nat): Round
    requires n <= |order| == |visits| && forall i | 0 <= i < |order| :: order[i] in queue
    decreases |order| - n
  {
    if n == |order| then Round(queue, n, false)
    else if Reconciled(s, queue[order[n]], worker, visits[n]).raised then
      Round(Visited(s, queue, order[n], worker, visits[n]), n + 1, true)
    else Rest(s, Visited(s, queue, order[n], worker, visits[n]), order, worker, visits, n + 1)
  }

  lemma {:induction false} RoundShape(s: Setting, queue: map<string, Entry>, order: seq<string>, worker: string,
                                      visits: seq<Visit>, n: nat)
    requires n <= |order| == |visits| && (forall k | 0 <= k < |order| :: order[k] in queue)
    ensures var round := Rest(s, queue, order, worker, visits, n);
            && n <= round.done <= |order| && round.queue.Keys == queue.Keys
            && (if round.stopped then round.done > n else round.done == |order|)
    decreases |order| - n
  {
    if n == |order| {
    } else {
      RoundShape(s, Visited(s, queue, order[n], worker, visits[n]), order, worker, visits, n + 1);
    }
  }

  lemma {:induction false} UnlistedUnchanged(s: Setting, queue: map<string, Entry>, order: seq<string>, worker: string,
                                             visits: seq<Visit>, n: nat, jobId: string)
    requires n <= |order| == |visits| && (forall k | 0 <= k < |order| :: order[k] in queue) && jobId in queue
    requires var round := Rest(s, queue, order, worker, visits, n); forall k | n <= k < round.done && k < |order| :: order[k] != jobId
    ensures jobId in Rest(s, queue, order, worker, visits, n).queue
    ensures Rest(s, queue, order, worker, visits, n).queue[jobId] == queue[jobId]
    decreases |order| - n
  {
    if n == |order| {
    } else {
      RoundShape(s, queue, order, worker, visits, n);
      var next := Visited(s, queue, order[n], worker, visits[n]);
      if !Reconciled(s, queue[order[n]], worker, visits[n]).raised {
        RoundShape(s, next, order, worker, visits, n + 1);
        assert order[n] != jobId;
        UnlistedUnchanged(s, next, order, worker, visits, n + 1, jobId);
      }
    }
  }

  /** A round visits the listed jobs up to the first that raises. Each visited job is left as one visit leaves it,
      whatever happened to the others. */
  lemma {:induction false} RoundIsPerJob(s: Setting, queue: map<string, Entry>, order: seq<string>, worker: string,
                                         visits: seq<Visit>, n: nat, i: nat)
    requires n <= i < |order| == |visits| && forall k | 0 <= k < |order| :: order[k] in queue
    requires forall j, k | 0 <= j < k < |order| :: order[j] != order[k]
    requires i < Rest(s, queue, order, worker, visits, n).done
    ensures var round := Rest(s, queue, order, worker, visits, n);
            var left := Reconciled(s, queue[order[i]], worker, visits[i]);
            && order[i] in round.queue && round.queue[order[i]] == Entry(left.job, left.receipts)
            && (left.raised <==> round.stopped && i == round.done - 1)
    decreases |order| - n
  {
    var next := Visited(s, queue, order[n], worker, visits[n]);
    if !Reconciled(s, queue[order[n]], worker, visits[n]).raised {
      RoundShape(s, next, order, worker, visits, n + 1);
      if i == n {
        UnlistedUnchanged(s, next, order, worker, visits, n + 1, order[n]);
      } else {
        RoundIsPerJob(s, next, order, worker, visits, n + 1, i);
      }
    }
  }

  class DeliveryQueue {
    var jobs: map<string, Job>
    var receipts: map<string, map<AttemptId, Receipt>>
    const leaseSeconds: int

    constructor (leaseSeconds: int)
      requires leaseSeconds > 0
      ensures jobs == map[] && receipts == map[] && this.leaseSeconds == leaseSeconds
    {
      jobs, receipts := map[], map[];
      this.leaseSeconds := leaseSeconds;
    }

    function Setting(): Setting {
      DeliveryRuns.Setting(AsWritten, leaseSeconds)
    }

    function ReceiptsOf(jobId: string): map<AttemptId, Receipt>
      reads this
    {
      if jobId in receipts then receipts[jobId] else map[]
    }

    function JobAt(jobId: string): Option<Job>
      reads this
    {
      if jobId in jobs then Some(jobs[jobId]) else None
    }

    /** `Err` stands for an invalid description or a clash; a clash also turns the stored job into a conflict. */
    method EnqueueJob(id: Identity, now: int) returns (result: Option<Job>)
      modifies this
      ensures receipts == old(receipts)
      ensures !ValidIdentity(id) ==> result.None? && jobs == old(jobs)
      ensures ValidIdentity(id) ==>
                var enqueued := Enqueue(old(JobAt(id.binding.jobId)), id, now);
                && jobs == old(jobs)[id.binding.jobId := enqueued.job]
                && result == (if enqueued.Clashed? then None else Some(enqueued.job))
    {
      if !ValidIdentity(id) {
        return None;
      }
      var jobId := id.binding.jobId;
      if jobId !in jobs {
        var job := FreshJob(id, now);
        jobs := jobs[jobId := job];
        return Some(job);
      }
      var existing := jobs[jobId];
      if existing.identity == id {
        assert jobs == jobs[jobId := existing];
        return Some(existing);
      }
      jobs := jobs[jobId := existing.(state := Conflict, lease := None, updatedAt := now)];
      return None;
    }

    method ClaimFor(jobId: string, worker: string, now: int) returns (claiming: Claiming)
      requires jobId in jobs
      modifies this`jobs
      ensures claiming == ClaimJob(AsWritten, old(jobs[jobId]), ReceiptsOf(jobId), worker, now, leaseSeconds)
      ensures jobs == if claiming.Granted? || claiming.Recovered? then old(jobs)[jobId := claiming.job] else old(jobs)
    {
      var job := jobs[jobId];
      var known := ReceiptsOf(jobId);
      if job.state.Delivering? && job.lease.Some? {
        var lease := job.lease.value;
        if lease.attempt in known {
          var receipt := known[lease.attempt];
          if receipt.binding != job.identity.binding {
            return ForeignReceipt;
          }
          job := ApplyReceipt(AsWritten, job, receipt, now);
          jobs := jobs[jobId := job];
          return Recovered(job);
        }
        if lease.expiresAt > now {
          return Refused;
        }
        if lease.phase.HeldMutationStarted? {
          job := job.(state := Uncertain, uncertainSince := Some(job.uncertainSince.GetOr(now)));
        } else {
          job := job.(state := RetryableFailed);
        }
        job := job.(lease := None);
        jobs := jobs[jobId := job];
      }
      if !Claimable(job.state) {
        return Refused;
      }
      claiming := Grant(job, worker, now, leaseSeconds);
      jobs := jobs[jobId := claiming.job];
    }

    method MarkRemoteMutationStarted(jobId: string, attempt: AttemptId, now: int) returns (marked: bool)
      requires jobId in jobs
      modifies this`jobs
      ensures marked == MarkStarted(old(jobs[jobId]), attempt, now).Some?
      ensures jobs == if marked then old(jobs)[jobId := MarkStarted(old(jobs[jobId]), attempt, now).value] else old(jobs)
    {
      var job := jobs[jobId];
      if !LeasedTo(job, attempt) || job.lease.value.phase.HeldQueryOnly? {
        return false;
      }
      jobs := jobs[jobId := job.(lease := Some(job.lease.value.(phase := HeldMutationStarted)), updatedAt := now)];
      return true;
    }

    method FinalizeAttempt(jobId: string, receipt: Receipt, now: int) returns (finalized: Finalized)
      requires jobId in jobs
      modifies this`jobs
      ensures finalized == Finalize(AsWritten, old(jobs[jobId]), receipt, now)
      ensures jobs == if finalized.Applied? then old(jobs)[jobId := finalized.job] else old(jobs)
    {
      var job := jobs[jobId];
      if !LeasedTo(job, receipt.attempt) {
        return if job.last.Some? && job.last.value.digest == ReceiptDigest(receipt) then AlreadyApplied else LeaseLost;
      }
      if receipt.binding != job.identity.binding {
        return Foreign;
      }
      job := ApplyReceipt(AsWritten, job, receipt, now);
      jobs := jobs[jobId := job];
      return Applied(job);
    }

    /** Writes the receipt once and settles the job with it. */
    method CloseAttempt(jobId: string, worker: string, claim: Claim, outcome: Outcome, started: bool, t: Times)
        returns (raised: bool)
      requires jobId in jobs
      modifies this
      ensures var after := Close(Setting(), old(jobs[jobId]), old(ReceiptsOf(jobId)), worker, claim, outcome, started, t);
              && jobs == old(jobs)[jobId := after.job] && ReceiptsOf(jobId) == after.receipts && raised == after.raised
      ensures receipts - {jobId} == old(receipts) - {jobId}
    {
      var job := jobs[jobId];
      assert jobs == jobs[jobId := job];
      var receipt := Receipt(job.identity.binding, claim.attempt, worker, claim.previousState, outcome, claim.queryOnly,
                             started, claim.startedAt, t.recorded);
      if claim.attempt in ReceiptsOf(jobId) || !ValidReceipt(receipt) {
        return true;
      }
      receipts := receipts[jobId := ReceiptsOf(jobId)[claim.attempt := receipt]];
      var finalized := FinalizeAttempt(jobId, receipt, t.finalized);
      return finalized.LeaseLost? || finalized.Foreign?;
    }

    /** The Notion adapter at work under a granted claim. */
    method Deliver(jobId: string, worker: string, claim: Claim, seen: Surroundings, t: Times) returns (raised: bool)
      requires jobId in jobs
      modifies this
      ensures var after := Proceed(Setting(), old(jobs[jobId]), old(ReceiptsOf(jobId)), worker, claim, seen, t);
              && jobs == old(jobs)[jobId := after.job] && ReceiptsOf(jobId) == after.receipts && raised == after.raised
      ensures receipts - {jobId} == old(receipts) - {jobId}
    {
      var job := jobs[jobId];
      var verdict := BeforeMutation(job.identity, claim.queryOnly, seen);
      if !verdict.Announce? {
        raised := CloseAttempt(jobId, worker, claim, BeforeOutcome(verdict), false, t);
        return;
      }
      var marked := MarkRemoteMutationStarted(jobId, claim.attempt, t.announced);
      if !marked {
        raised := CloseAttempt(jobId, worker, claim, RAISED_BEFORE, false, t);
        return;
      }
      raised := CloseAttempt(jobId, worker, claim, AfterMutation(job.identity, seen), true, t);
    }

    /** One attempt by the Notion adapter: claim, look, announce, post, write the receipt, settle. */
    method Attempt(jobId: string, worker: string, seen: Surroundings, t: Times) returns (raised: bool)
      requires jobId in jobs
      modifies this
      ensures var after := AttemptOnJob(Setting(), old(jobs[jobId]), old(ReceiptsOf(jobId)), worker, seen, t);
              && jobs == old(jobs)[jobId := after.job] && ReceiptsOf(jobId) == after.receipts && raised == after.raised
      ensures receipts - {jobId} == old(receipts) - {jobId}
    {
      assert jobs == jobs[jobId := jobs[jobId]];
      var claiming := ClaimFor(jobId, worker, t.claimed);
      if !claiming.Granted? {
        return claiming.ForeignReceipt?;
      }
      raised := Deliver(jobId, worker, claiming.claim, seen, t);
    }

    /** Resolving an uncertain job: wait out the quarantine, query once more, and make the job pending only when
        the last receipt shows a completed query without a match. */
    method ResolveConfirmedAbsent(jobId: string, worker: string, asked: int, seen: Surroundings, t: Times, confirmed: int)
        returns (accepted: bool)
      requires jobId in jobs
      modifies this
      ensures var job := old(jobs[jobId]);
              var after := AttemptOnJob(Setting(), job, old(ReceiptsOf(jobId)), worker, seen, t);
              if !QuarantineElapsed(job, asked) then !accepted && jobs == old(jobs) && receipts == old(receipts)
              else
                && ReceiptsOf(jobId) == after.receipts
                && jobs == old(jobs)[jobId := if !after.raised && AbsenceRecorded(after.job, after.receipts)
                                              then ConfirmAbsent(after.job, confirmed) else after.job]
                && (accepted <==> !after.raised && (after.job.state.Uncertain? ==> AbsenceRecorded(after.job, after.receipts)))
    {
      var job := jobs[jobId];
      if !QuarantineElapsed(job, asked) {
        return false;
      }
      var raised := Attempt(jobId, worker, seen, t);
      if raised {
        return false;
      }
      var queried := jobs[jobId];
      if !queried.state.Uncertain? {
        return true;
      }
      if !AbsenceRecorded(queried, ReceiptsOf(jobId)) {
        return false;
      }
      jobs := jobs[jobId := ConfirmAbsent(queried, confirmed)];
      return true;
    }

    /** Every job with its receipts. */
    function Entries(): map<string, Entry>
      reads this
    {
      map jobId | jobId in jobs :: Entry(jobs[jobId], ReceiptsOf(jobId))
    }

    /** One listed job; every other job and its receipts stay as they are. */
    method ReconcileOne(jobId: string, worker: string, visit: Visit) returns (raised: bool)
      requires jobId in jobs
      modifies this
      ensures Entries() == Visited(Setting(), old(Entries()), jobId, worker, visit)
      ensures raised == Reconciled(Setting(), old(Entries())[jobId], worker, visit).raised
    {
      if Terminal(jobs[jobId].state) {
        return false;
      }
      ghost var left := Reconciled(Setting(), old(Entries())[jobId], worker, visit);
      raised := Attempt(jobId, worker, visit.seen, visit.times);
      assert Entries()[jobId] == Entry(left.job, left.receipts);
      forall other | other in jobs && other != jobId
        ensures jobs[other] == old(jobs)[other] && ReceiptsOf(other) == old(ReceiptsOf(other))
      {
        SameReceipts(old(receipts), receipts, jobId, other);
      }
    }

    /** One pass over the listed jobs, stopping at the first attempt that raises. */
    method Reconcile(order: seq<string>, worker: string, visits: seq<Visit>) returns (stopped: bool, done: nat)
      requires |visits| == |order| && forall i | 0 <= i < |order| :: order[i] in jobs
      modifies this
      ensures Round(Entries(), done, stopped) == Rest(Setting(), old(Entries()), order, worker, visits, 0)
    {
      stopped, done := false, 0;
      while done < |order| && !stopped
        invariant done <= |order| && jobs.Keys == Entries().Keys == old(jobs.Keys)
        invariant Rest(Setting(), old(Entries()), order, worker, visits, 0)
                  == if stopped then Round(Entries(), done, true) else Rest(Setting(), Entries(), order, worker, visits, done)
        decreases |order| - done, !stopped
      {
        stopped := ReconcileOne(order[done], worker, visits[done]);
        assert jobs.Keys == Entries().Keys;
        done := done + 1;
      }
    }
  }

  lemma SameReceipts(before: map<string, map<AttemptId, Receipt>>, after: map<string, map<AttemptId, Receipt>>, a: string, b: string)
    requires after - {a} == before - {a} && a != b
    ensures b in after <==> b in before
    ensures b in after ==> after[b] == before[b]
  {
    assert b in after <==> b in after - {a};
    assert b in before <==> b in before - {a};
    if b in after {
      assert (after - {a})[b] == (before - {a})[b];
    }
  }
}
