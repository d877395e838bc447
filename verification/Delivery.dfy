/** The durable delivery queue: what each locked operation does to one job. */
module Delivery {
  import opened Common

  datatype State =
    | NotRequired
    | Pending
    | Delivering
    | Succeeded
    | RetryableFailed
    | PermanentFailed
    | Uncertain
    | Conflict
    | Cancelled

  predicate Terminal(state: State) {
    state.NotRequired? || state.Succeeded? || state.PermanentFailed? || state.Conflict? || state.Cancelled?
  }

  predicate Claimable(state: State) {
    state.Pending? || state.RetryableFailed? || state.Uncertain?
  }

  /** The states an attempt may end in. */
  predicate EndsAttempt(state: State) {
    state.Succeeded? || state.RetryableFailed? || state.PermanentFailed? || state.Uncertain? || state.Conflict?
    || state.Cancelled?
  }

  datatype Policy = PolicyNotRequired | PolicyRequired | PolicyBestEffort

  datatype TargetType = TargetNone | TargetFile | TargetNotion

  datatype Payload = Payload(memoryId: string, content: string)

  /** What ties a receipt to its job; the payload stands for its collision-free digest. */
  datatype Binding = Binding(jobId: string, bookId: string, runId: string, publication: string, payload: Payload,
                             targetType: TargetType)

  /** The fields that must not differ between two enqueues of one job id. The operation id is derived from them;
      `databaseId` may be empty, and `restOfTarget` is the target's other content. */
  datatype Identity = Identity(binding: Binding, databaseId: string, quarantineSeconds: int, restOfTarget: string,
                               policy: Policy)

  datatype Phase = HeldClaimed | HeldQueryOnly | HeldMutationStarted

  datatype AttemptId = AttemptId(number: nat, worker: string, at: int)

  datatype Lease = Lease(worker: string, attempt: AttemptId, acquiredAt: int, expiresAt: int, phase: Phase)

  datatype Outcome = Outcome(state: State, code: string)

  datatype Receipt = Receipt(binding: Binding, attempt: AttemptId, worker: string, previousState: State,
                             outcome: Outcome, queryOnly: bool, mutationStarted: bool, startedAt: int, finishedAt: int)

  /** A collision-free digest of an attempt receipt. */
  datatype ReceiptDigest = ReceiptDigest(receipt: Receipt)

  datatype LastReceipt = LastReceipt(attempt: AttemptId, digest: ReceiptDigest)

  datatype Job = Job(identity: Identity, state: State, lease: Option<Lease>, attemptCount: nat,
                     last: Option<LastReceipt>, uncertainSince: Option<int>, confirmedAbsentAt: Option<int>,
                     createdAt: int, updatedAt: int)

  /** `AsWritten` is the queue as it is. In the other two a query-only attempt that would end in `RetryableFailed` goes
      back to `Uncertain`; under `StickyRechecked`, besides, an absence is confirmed only while the attempt that
      showed it is still the job's last one. */
  datatype Variant = AsWritten | StickyUncertain | StickyRechecked

  function EndState(variant: Variant, queryOnly: bool, state: State): State {
    if !variant.AsWritten? && queryOnly && state.RetryableFailed? then Uncertain else state
  }

  // ---------- Validation ----------

  predicate ValidIdentity(id: Identity) {
    && (id.binding.targetType.TargetNone? <==> id.policy.PolicyNotRequired?)
    && (id.binding.targetType.TargetNotion? ==> id.binding.payload.memoryId != "" && id.quarantineSeconds >= 1)
  }

  predicate ValidJob(job: Job) {
    && ValidIdentity(job.identity)
    && (job.state.Delivering? <==> job.lease.Some?)
    && (job.lease.Some? ==> job.lease.value.acquiredAt < job.lease.value.expiresAt)
    && (job.state.NotRequired? ==> job.identity.policy.PolicyNotRequired?)
  }

  predicate ValidReceipt(receipt: Receipt) {
    && Claimable(receipt.previousState)
    && !receipt.binding.targetType.TargetNone?
    && receipt.startedAt <= receipt.finishedAt
    && (receipt.queryOnly <==> receipt.previousState.Uncertain?)
    && !(receipt.queryOnly && receipt.mutationStarted)
    && EndsAttempt(receipt.outcome.state)
  }

  // ---------- The locked operations ----------

  function FreshJob(id: Identity, now: int): Job {
    Job(id, if id.policy.PolicyNotRequired? then NotRequired else Pending, None, 0, None, None, None, now, now)
  }

  datatype Enqueued = Created(job: Job) | Existing(job: Job) | Clashed(job: Job)

  function Enqueue(existing: Option<Job>, id: Identity, now: int): Enqueued {
    match existing
    case None => Created(FreshJob(id, now))
    case Some(job) =>
      if job.identity == id then Existing(job)
      else Clashed(job.(state := Conflict, lease := None, updatedAt := now))
  }

  /** A lapsed lease says nothing was sent, unless the mutation had been announced. */
  function Expire(variant: Variant, job: Job, now: int): Job
    requires job.lease.Some?
  {
    var state := if job.lease.value.phase.HeldMutationStarted? then Uncertain
                 else EndState(variant, job.lease.value.phase.HeldQueryOnly?, RetryableFailed);
    var since := if state.Uncertain? then Some(job.uncertainSince.GetOr(now)) else job.uncertainSince;
    job.(state := state, lease := None, uncertainSince := since)
  }

  function ApplyReceipt(variant: Variant, job: Job, receipt: Receipt, now: int): Job {
    var state := EndState(variant, receipt.queryOnly, receipt.outcome.state);
    var since := if state.Uncertain? then Some(job.uncertainSince.GetOr(now))
                 else if state.Succeeded? then None
                 else job.uncertainSince;
    job.(state := state, lease := None, last := Some(LastReceipt(receipt.attempt, ReceiptDigest(receipt))),
         uncertainSince := since, updatedAt := now)
  }

  datatype Claim = Claim(attempt: AttemptId, worker: string, previousState: State, queryOnly: bool, startedAt: int)

  datatype Claiming =
    | Refused
    | Recovered(job: Job)
    | ForeignReceipt
    | Granted(job: Job, claim: Claim)

  function Grant(job: Job, worker: string, now: int, leaseSeconds: int): Claiming {
    var attempt := AttemptId(job.attemptCount + 1, worker, now);
    var queryOnly := job.state.Uncertain?;
    var lease := Lease(worker, attempt, now, now + leaseSeconds, if queryOnly then HeldQueryOnly else HeldClaimed);
    Granted(job.(state := Delivering, attemptCount := job.attemptCount + 1, lease := Some(lease), updatedAt := now),
            Claim(attempt, worker, job.state, queryOnly, now))
  }

  /** Claiming first settles a lease that is still on record: by its receipt, or by its expiry. */
  function ClaimJob(variant: Variant, job: Job, receipts: map<AttemptId, Receipt>, worker: string, now: int,
                    leaseSeconds: int): Claiming
  {
    if job.state.Delivering? && job.lease.Some? then
      var lease := job.lease.value;
      if lease.attempt in receipts then
        var receipt := receipts[lease.attempt];
        if receipt.binding == job.identity.binding then Recovered(ApplyReceipt(variant, job, receipt, now)) else ForeignReceipt
      else if lease.expiresAt > now then Refused
      else Grant(Expire(variant, job, now), worker, now, leaseSeconds)
    else if Claimable(job.state) then Grant(job, worker, now, leaseSeconds)
    else Refused
  }

  predicate LeasedTo(job: Job, attempt: AttemptId) {
    job.state.Delivering? && job.lease.Some? && job.lease.value.attempt == attempt
  }

  /** Announces the remote mutation; `None` is a lease error. */
  function MarkStarted(job: Job, attempt: AttemptId, now: int): Option<Job> {
    if !LeasedTo(job, attempt) || job.lease.value.phase.HeldQueryOnly? then None
    else Some(job.(lease := Some(job.lease.value.(phase := HeldMutationStarted)), updatedAt := now))
  }

  datatype Finalized = Applied(job: Job) | AlreadyApplied | LeaseLost | Foreign

  function Finalize(variant: Variant, job: Job, receipt: Receipt, now: int): Finalized {
    if !LeasedTo(job, receipt.attempt) then
      if job.last.Some? && job.last.value.digest == ReceiptDigest(receipt) then AlreadyApplied else LeaseLost
    else if receipt.binding != job.identity.binding then Foreign
    else Applied(ApplyReceipt(variant, job, receipt, now))
  }

  /** The last, locked step of resolving a job whose absence was confirmed. */
  function ConfirmAbsent(job: Job, now: int): Job {
    if !job.state.Uncertain? then job
    else job.(state := Pending, confirmedAbsentAt := Some(now), lease := None, updatedAt := now)
  }

  predicate QuarantineElapsed(job: Job, now: int) {
    job.state.Uncertain? && job.uncertainSince.Some? && now >= job.uncertainSince.value + job.identity.quarantineSeconds
  }

  // ---------- Every operation keeps the job valid ----------

  lemma OperationsKeepJobsValid(variant: Variant, job: Job, receipts: map<AttemptId, Receipt>, receipt: Receipt,
                                worker: string, id: Identity, now: int, leaseSeconds: int)
    requires ValidJob(job) && ValidIdentity(id) && ValidReceipt(receipt) && leaseSeconds > 0
    requires forall a | a in receipts :: ValidReceipt(receipts[a])
    ensures ValidJob(Enqueue(None, id, now).job) && ValidJob(Enqueue(Some(job), id, now).job)
    ensures var claiming := ClaimJob(variant, job, receipts, worker, now, leaseSeconds);
            (claiming.Granted? || claiming.Recovered?) ==> ValidJob(claiming.job)
    ensures MarkStarted(job, receipt.attempt, now).Some? ==> ValidJob(MarkStarted(job, receipt.attempt, now).value)
    ensures Finalize(variant, job, receipt, now).Applied? ==> ValidJob(Finalize(variant, job, receipt, now).job)
    ensures ValidJob(ConfirmAbsent(job, now))
  {
  }

  /** Equal up to the moments at which the receipt was applied. */
  predicate SameUpToTime(a: Job, b: Job) {
    a == b.(updatedAt := a.updatedAt, uncertainSince := a.uncertainSince)
    && (a.uncertainSince.Some? <==> b.uncertainSince.Some?)
  }

  /** A receipt found by the next claim has the effect that finalizing it would have had. */
  lemma RecoveryEqualsFinalizing(variant: Variant, job: Job, receipts: map<AttemptId, Receipt>, receipt: Receipt,
                                 worker: string, claimedAt: int, finalizedAt: int, leaseSeconds: int)
    requires LeasedTo(job, receipt.attempt)
    requires receipt.attempt in receipts && receipts[receipt.attempt] == receipt
    ensures var claiming := ClaimJob(variant, job, receipts, worker, claimedAt, leaseSeconds);
            var finalized := Finalize(variant, job, receipt, finalizedAt);
            && (claiming.Recovered? <==> finalized.Applied?)
            && (claiming.ForeignReceipt? <==> finalized.Foreign?)
            && (claiming.Recovered? ==>
                  && SameUpToTime(claiming.job, finalized.job)
                  && (job.uncertainSince.Some? ==> claiming.job.(updatedAt := finalizedAt) == finalized.job)
                  && Finalize(variant, claiming.job, receipt, finalizedAt) == AlreadyApplied)
  {
  }
}
