/** How an attempt ends a job, in terms of the job and of what the attempt saw. */
module DeliveryOutcomes {
  import opened Common
  import opened Delivery
  import opened NotionAdapter
  import opened DeliveryRuns
  import opened DeliveryAttempts

  // ---------- Pages ----------

  /** The page carries the operation or the memory of the job. */
  predicate Names(binding: Binding, page: Page) {
    page.operationId == binding || page.memoryId == binding.payload.memoryId
  }

  predicate NoneNamed(binding: Binding, pages: seq<Page>) {
    forall j | 0 <= j < |pages| :: !Names(binding, pages[j])
  }

  /** One page alone names the job, by both identities and with its payload. */
  predicate OnlyOwnPage(binding: Binding, pages: seq<Page>) {
    exists i | 0 <= i < |pages| ::
      && pages[i] == Page(binding, binding.payload.memoryId, binding.payload)
      && forall j | 0 <= j < |pages| && j != i :: !Names(binding, pages[j])
  }

  lemma ClassifiedByPages(binding: Binding, pages: seq<Page>)
    ensures Classify(binding, pages).Absent? <==> NoneNamed(binding, pages)
    ensures Classify(binding, pages).Observed? ==>
              var state := Classify(binding, pages).outcome.state;
              && (state == Succeeded <==> OnlyOwnPage(binding, pages))
              && (state == Conflict <==> !OnlyOwnPage(binding, pages))
    ensures OnlyOwnPage(binding, pages) ==> !NoneNamed(binding, pages)
  {
    ClassifiedExactly(binding, pages);
    assert forall page :: Matches(binding, page) <==> Names(binding, page);
    forall i | OnlyMatch(binding, pages, i) && Verified(binding, pages[i]) ensures OnlyOwnPage(binding, pages) {
      assert pages[i] == Page(binding, binding.payload.memoryId, binding.payload);
    }
    if OnlyOwnPage(binding, pages) {
      var i :| 0 <= i < |pages| && pages[i] == Page(binding, binding.payload.memoryId, binding.payload)
               && forall j | 0 <= j < |pages| && j != i :: !Names(binding, pages[j]);
      assert OnlyMatch(binding, pages, i) && Verified(binding, pages[i]);
    }
  }

  // ---------- Before the mutation ----------

  /** The adapter is missing, serves another database, or cannot read a schema that the job requires. */
  predicate Unusable(id: Identity, seen: Surroundings) {
    || !seen.adapterPresent
    || (id.databaseId != "" && seen.databaseId != id.databaseId)
    || (id.policy == PolicyRequired && seen.schema == SchemaUnavailable)
  }

  /** The adapter is usable, but the schema does not fit, or the payload does not. */
  predicate Hopeless(id: Identity, seen: Surroundings) {
    !Unusable(id, seen) && ((id.policy == PolicyRequired && seen.schema == SchemaInvalid) || !seen.payloadFits)
  }

  /** The remote side is asked. */
  predicate Looks(id: Identity, seen: Surroundings) {
    !Unusable(id, seen) && !Hopeless(id, seen)
  }

  /** An attempt that may post does post exactly after looking and finding no page that names the job. */
  predicate GoesOnToPost(id: Identity, queryOnly: bool, seen: Surroundings) {
    !queryOnly && Looks(id, seen) && seen.query.Pages? && NoneNamed(id.binding, seen.query.pages)
  }

  /** In which state an attempt ends that does not post, and whether it shows the job to be absent. */
  predicate EndsUnposted(id: Identity, queryOnly: bool, seen: Surroundings, state: State, absent: bool) {
    var query := seen.query;
    && (state == RetryableFailed <==>
          Unusable(id, seen) || (Looks(id, seen) && (query.Malformed? || (query.QueryFailed? && !queryOnly))))
    && (state == PermanentFailed <==> Hopeless(id, seen))
    && (state == Uncertain <==>
          Looks(id, seen) && queryOnly && (query.QueryFailed? || (query.Pages? && NoneNamed(id.binding, query.pages))))
    && (state == Succeeded <==> Looks(id, seen) && query.Pages? && OnlyOwnPage(id.binding, query.pages))
    && (state == Conflict <==>
          Looks(id, seen) && query.Pages? && !NoneNamed(id.binding, query.pages) && !OnlyOwnPage(id.binding, query.pages))
    && (absent <==> Looks(id, seen) && queryOnly && query.Pages? && NoneNamed(id.binding, query.pages))
  }

  /** In which state the readback leaves a posted job. */
  predicate EndsPosted(id: Identity, seen: Surroundings, state: State) {
    var shown := seen.post.Posted? && seen.readback.Pages?;
    && (state == Succeeded <==> shown && OnlyOwnPage(id.binding, seen.readback.pages))
    && (state == Conflict <==>
          shown && !NoneNamed(id.binding, seen.readback.pages) && !OnlyOwnPage(id.binding, seen.readback.pages))
    && (state == Uncertain <==> !shown || NoneNamed(id.binding, seen.readback.pages))
  }

  /** What an attempt decides before the mutation, for attempts that may post and for those that may not. */
  lemma DecidesExactly(id: Identity, queryOnly: bool, seen: Surroundings)
    ensures BeforeMutation(id, queryOnly, seen).Announce? <==> GoesOnToPost(id, queryOnly, seen)
    ensures !BeforeMutation(id, queryOnly, seen).Announce? ==>
              var outcome := BeforeOutcome(BeforeMutation(id, queryOnly, seen));
              EndsUnposted(id, queryOnly, seen, outcome.state, outcome.code == ABSENT_CODE)
  {
    if seen.query.Pages? {
      ClassifiedByPages(id.binding, seen.query.pages);
    }
  }

  lemma ReadbackDecidesExactly(id: Identity, seen: Surroundings)
    ensures EndsPosted(id, seen, AfterMutation(id, seen).state) && AfterMutation(id, seen).code != ABSENT_CODE
  {
    if seen.readback.Pages? {
      ClassifiedByPages(id.binding, seen.readback.pages);
    }
  }

  // ---------- The job an attempt leaves ----------

  /** Whether the next claim finds the job uncertain. */
  predicate FoundUncertain(job: Job) {
    job.state == Uncertain || (job.lease.Some? && job.lease.value.phase == HeldMutationStarted)
  }

  /** Since when the job has been uncertain, once it ended in `state`. */
  predicate DatedBy(before: Option<int>, state: State, now: int, since: Option<int>) {
    since == if state == Uncertain then Some(before.GetOr(now)) else if state == Succeeded then None else before
  }

  lemma CloseLeaves(s: Setting, job: Job, receipts: map<AttemptId, Receipt>, worker: string, claim: Claim,
                    outcome: Outcome, started: bool, t: Times)
    requires s.variant.AsWritten? && job.identity.binding.targetType.TargetNotion?
    requires LeasedTo(job, claim.attempt) && claim.attempt !in receipts && claim.startedAt <= t.recorded
    requires Claimable(claim.previousState) && (claim.queryOnly <==> claim.previousState.Uncertain?)
    requires EndsAttempt(outcome.state) && !(started && claim.queryOnly)
    ensures var after := Close(s, job, receipts, worker, claim, outcome, started, t);
            var receipt := Receipt(job.identity.binding, claim.attempt, worker, claim.previousState, outcome, claim.queryOnly,
                                   started, claim.startedAt, t.recorded);
            && !after.raised && after.receipts == receipts[claim.attempt := receipt]
            && after.job == job.(state := outcome.state, lease := None, uncertainSince := after.job.uncertainSince,
                                 last := Some(LastReceipt(claim.attempt, ReceiptDigest(receipt))), updatedAt := t.finalized)
            && DatedBy(job.uncertainSince, outcome.state, t.finalized, after.job.uncertainSince)
            && after.added == [Ended(claim.attempt.number, job.lease.value.phase.HeldQueryOnly?, outcome.state,
                                     outcome.code == ABSENT_CODE)]
  {
  }

  /** The job an undisturbed attempt leaves, its last receipt, and what the attempt has added to the history, in terms of
      the job it found and of what it saw: one more attempt, no lease, and the state that the sight of the remote side
      calls for. */
  predicate Leaves(job: Job, worker: string, seen: Surroundings, t: Times, held: Option<int>, after: Attempted, a: AttemptId) {
    var queryOnly, id := FoundUncertain(job), job.identity;
    var posts := GoesOnToPost(id, queryOnly, seen);
    && !after.raised && after.job.identity == id && after.job.lease.None?
    && a == AttemptId(job.attemptCount + 1, worker, t.claimed) && after.job.attemptCount == a.number
    && after.job.createdAt == job.createdAt && after.job.confirmedAbsentAt == job.confirmedAbsentAt
    && DatedBy(held, after.job.state, t.finalized, after.job.uncertainSince)
    && a in after.receipts
    && var receipt := after.receipts[a]; var absent := receipt.outcome.code == ABSENT_CODE;
       && receipt.outcome.state == after.job.state && after.job.last == Some(LastReceipt(a, ReceiptDigest(receipt)))
       && receipt.binding == id.binding && receipt.worker == worker && receipt.queryOnly == queryOnly
       && receipt.mutationStarted == posts && receipt.startedAt == t.claimed && receipt.finishedAt == t.recorded
       && (if posts then EndsPosted(id, seen, after.job.state) && !absent
           else EndsUnposted(id, queryOnly, seen, after.job.state, absent))
       && after.added == LapseOf(job, t) + [Claimed(a.number, queryOnly)]
                         + (if posts then [Announced(a.number), Posting(a.number, true)] else [])
                         + [Ended(a.number, queryOnly, after.job.state, absent)]
  }

  /** The lapse of the lease that the claim finds on record. */
  function LapseOf(job: Job, t: Times): seq<Entry> {
    if job.lease.None? then []
    else
      var lease := job.lease.value;
      [Ended(lease.attempt.number, lease.phase == HeldQueryOnly,
             if lease.phase == HeldMutationStarted then Uncertain else RetryableFailed, false)]
  }

  lemma ProceedLeaves(s: Setting, held: Job, receipts: map<AttemptId, Receipt>, worker: string, claim: Claim,
                      seen: Surroundings, t: Times)
    requires s.variant.AsWritten? && held.identity.binding.targetType.TargetNotion?
    requires LeasedTo(held, claim.attempt) && claim.attempt !in receipts && claim.startedAt <= t.recorded
    requires Claimable(claim.previousState) && (claim.queryOnly <==> claim.previousState.Uncertain?)
    requires held.lease.value.phase == if claim.queryOnly then HeldQueryOnly else HeldClaimed
    ensures var after := Proceed(s, held, receipts, worker, claim, seen, t);
            var posts, n := GoesOnToPost(held.identity, claim.queryOnly, seen), claim.attempt.number;
            var state, last := after.job.state, after.job.last;
            && !after.raised && claim.attempt in after.receipts
            && var receipt := after.receipts[claim.attempt];
               var absent := receipt.outcome.code == ABSENT_CODE;
               && receipt == Receipt(held.identity.binding, claim.attempt, worker, claim.previousState, receipt.outcome,
                                     claim.queryOnly, posts, claim.startedAt, t.recorded)
               && after.receipts == receipts[claim.attempt := receipt] && receipt.outcome.state == state
               && (if posts then EndsPosted(held.identity, seen, state) && !absent
                   else EndsUnposted(held.identity, claim.queryOnly, seen, state, absent))
               && after.job == held.(state := state, lease := None, uncertainSince := after.job.uncertainSince,
                                     last := Some(LastReceipt(claim.attempt, ReceiptDigest(receipt))), updatedAt := t.finalized)
               && DatedBy(held.uncertainSince, state, t.finalized, after.job.uncertainSince)
               && after.added == (if posts then [Announced(n), Posting(n, true)] else [])
                                 + [Ended(n, claim.queryOnly, state, absent)]
  {
    DecidesExactly(held.identity, claim.queryOnly, seen);
    ReadbackDecidesExactly(held.identity, seen);
    var verdict := BeforeMutation(held.identity, claim.queryOnly, seen);
    if verdict.Announce? {
      var marked := MarkStarted(held, claim.attempt, t.announced).value;
      AfterMutationIsSafe(held.identity, seen);
      CloseLeaves(s, marked, receipts, worker, claim, AfterMutation(marked.identity, seen), true, t);
    } else {
      CloseLeaves(s, held, receipts, worker, claim, BeforeOutcome(verdict), false, t);
    }
  }

  // ---------- The claim before it ----------

  /** A claim is handed out for a job that waits, or whose lease has lapsed without a receipt. */
  predicate Startable(job: Job, receipts: map<AttemptId, Receipt>, now: int) {
    || job.state in {Pending, RetryableFailed, Uncertain}
    || (job.lease.Some? && job.lease.value.attempt !in receipts && job.lease.value.expiresAt <= now)
  }

  /** The moment since which the job counts as uncertain when the claim is handed out. */
  function SinceAtClaim(job: Job, now: int): Option<int> {
    if job.lease.Some? && job.lease.value.phase == HeldMutationStarted then Some(job.uncertainSince.GetOr(now))
    else job.uncertainSince
  }

  /** What a claim does to a valid job: it settles a lease by its receipt, or refuses, or hands out the next attempt with a
      new lease, query-only for a job found uncertain. */
  lemma ClaimsExactly(job: Job, receipts: map<AttemptId, Receipt>, worker: string, now: int, leaseSeconds: int)
    requires ValidJob(job)
    ensures var claiming := ClaimJob(AsWritten, job, receipts, worker, now, leaseSeconds);
            var found, queryOnly := job.lease.Some? && job.lease.value.attempt in receipts, FoundUncertain(job);
            var a := AttemptId(job.attemptCount + 1, worker, now);
            && (claiming.Granted? <==> Startable(job, receipts, now))
            && (claiming.Recovered? <==> found && receipts[job.lease.value.attempt].binding == job.identity.binding)
            && (claiming.ForeignReceipt? <==> found && receipts[job.lease.value.attempt].binding != job.identity.binding)
            && (claiming.Granted? ==>
                  && claiming.job == job.(state := Delivering, attemptCount := a.number, updatedAt := now,
                       uncertainSince := SinceAtClaim(job, now),
                       lease := Some(Lease(worker, a, now, now + leaseSeconds, if queryOnly then HeldQueryOnly else HeldClaimed)))
                  && claiming.claim.attempt == a && claiming.claim.worker == worker && claiming.claim.startedAt == now
                  && claiming.claim.queryOnly == queryOnly && Claimable(claiming.claim.previousState)
                  && claiming.claim.previousState == (if job.lease.None? then job.state
                                                      else if queryOnly then Uncertain else RetryableFailed))
            && (claiming.Recovered? ==>
                  var receipt := receipts[job.lease.value.attempt];
                  && claiming.job == job.(state := receipt.outcome.state, lease := None, updatedAt := now,
                       last := Some(LastReceipt(receipt.attempt, ReceiptDigest(receipt))),
                       uncertainSince := claiming.job.uncertainSince)
                  && DatedBy(job.uncertainSince, receipt.outcome.state, now, claiming.job.uncertainSince))
  {
  }

  lemma ClaimThenProceed(s: Setting, job: Job, receipts: map<AttemptId, Receipt>, worker: string, seen: Surroundings, t: Times)
    requires s.variant.AsWritten? && ValidJob(job) && Startable(job, receipts, t.claimed)
    ensures var claiming := ClaimJob(s.variant, job, receipts, worker, t.claimed, s.leaseSeconds);
            && claiming.Granted?
            && AttemptOnJob(s, job, receipts, worker, seen, t)
               == Proceed(s, claiming.job, receipts, worker, claiming.claim, seen, t)
                  .After(LapseOf(job, t) + [Claimed(job.attemptCount + 1, FoundUncertain(job))])
  {
    ClaimsExactly(job, receipts, worker, t.claimed, s.leaseSeconds);
  }

  lemma GrantedAttemptLeaves(s: Setting, job: Job, receipts: map<AttemptId, Receipt>, worker: string, seen: Surroundings,
                             t: Times)
    requires s.variant.AsWritten? && ValidJob(job) && job.identity.binding.targetType.TargetNotion?
    requires t.claimed <= t.recorded && forall a | a in receipts :: a.number <= job.attemptCount
    requires Startable(job, receipts, t.claimed)
    ensures var after := AttemptOnJob(s, job, receipts, worker, seen, t);
            var a := AttemptId(job.attemptCount + 1, worker, t.claimed);
            && Leaves(job, worker, seen, t, SinceAtClaim(job, t.claimed), after, a)
            && after.receipts == receipts[a := after.receipts[a]]
  {
    ClaimsExactly(job, receipts, worker, t.claimed, s.leaseSeconds);
    ClaimThenProceed(s, job, receipts, worker, seen, t);
    var claiming := ClaimJob(s.variant, job, receipts, worker, t.claimed, s.leaseSeconds);
    ProceedLeaves(s, claiming.job, receipts, worker, claiming.claim, seen, t);
  }

  /** A whole attempt on a valid Notion job that has no receipts of attempts yet to come. */
  lemma AttemptLeavesExactly(s: Setting, job: Job, receipts: map<AttemptId, Receipt>, worker: string, seen: Surroundings,
                             t: Times)
    requires s.variant.AsWritten? && ValidJob(job) && job.identity.binding.targetType.TargetNotion?
    requires t.claimed <= t.recorded && forall a | a in receipts :: a.number <= job.attemptCount
    ensures var after := AttemptOnJob(s, job, receipts, worker, seen, t);
            var a := AttemptId(job.attemptCount + 1, worker, t.claimed);
            if Startable(job, receipts, t.claimed) then
              && Leaves(job, worker, seen, t, SinceAtClaim(job, t.claimed), after, a)
              && after.receipts == receipts[a := after.receipts[a]]
            else if job.lease.Some? && job.lease.value.attempt in receipts then
              var receipt := receipts[job.lease.value.attempt];
              && after.receipts == receipts && after.raised == (receipt.binding != job.identity.binding)
              && (if after.raised then after.job == job && after.added == []
                  else
                    && after.job.state == receipt.outcome.state && after.job.lease.None?
                    && after.added == [Ended(job.lease.value.attempt.number, job.lease.value.phase == HeldQueryOnly,
                                             receipt.outcome.state, receipt.outcome.code == ABSENT_CODE)])
            else after == Attempted(job, receipts, false, [])
  {
    ClaimsExactly(job, receipts, worker, t.claimed, s.leaseSeconds);
    if Startable(job, receipts, t.claimed) {
      GrantedAttemptLeaves(s, job, receipts, worker, seen, t);
    }
  }

  // ---------- Enqueuing and confirming ----------

  /** Enqueuing a new id creates a waiting job, unless nothing is required of it; the same job again changes nothing; another
      job under the same id makes the stored one a conflict without a lease and leaves the rest of it as it was. */
  lemma EnqueuesExactly(existing: Option<Job>, id: Identity, now: int)
    ensures var enqueued := Enqueue(existing, id, now);
            && (enqueued.Created? <==> existing.None?)
            && (enqueued.Existing? <==> existing.Some? && existing.value.identity == id)
            && (enqueued.Existing? ==> enqueued.job == existing.value)
            && (enqueued.Created? ==>
                  && enqueued.job.identity == id && enqueued.job.attemptCount == 0 && enqueued.job.lease.None?
                  && enqueued.job.state == (if id.policy == PolicyNotRequired then NotRequired else Pending)
                  && enqueued.job.last.None? && enqueued.job.uncertainSince.None? && enqueued.job.confirmedAbsentAt.None?
                  && enqueued.job.createdAt == enqueued.job.updatedAt == now)
            && (enqueued.Clashed? ==>
                  && enqueued.job.state == Conflict && enqueued.job.lease.None? && enqueued.job.updatedAt == now
                  && enqueued.job == existing.value.(state := enqueued.job.state, lease := enqueued.job.lease,
                                                     updatedAt := enqueued.job.updatedAt))
  {
  }

  /** Confirming the absence of an uncertain job makes it pending and notes when; nothing else changes, not even the moment
      since which it was uncertain. Any other job is left alone. */
  lemma ConfirmsExactly(job: Job, now: int)
    ensures job.state != Uncertain ==> ConfirmAbsent(job, now) == job
    ensures job.state == Uncertain ==>
              var after := ConfirmAbsent(job, now);
              && after.state == Pending && after.lease.None? && after.confirmedAbsentAt == Some(now) && after.updatedAt == now
              && after.identity == job.identity && after.attemptCount == job.attemptCount && after.last == job.last
              && after.uncertainSince == job.uncertainSince && after.createdAt == job.createdAt
  {
  }

  /** The quarantine has passed for a job that is uncertain, and says since when, that many seconds ago or more. */
  lemma QuarantineExactly(job: Job, now: int)
    ensures QuarantineElapsed(job, now)
            <==> job.state == Uncertain
                 && exists since :: job.uncertainSince == Some(since) && now - since >= job.identity.quarantineSeconds
  {
    if QuarantineElapsed(job, now) {
      assert job.uncertainSince == Some(job.uncertainSince.value);
    }
  }

  /** An announcement is accepted exactly from the attempt on record that may post, and marks its lease; a receipt is applied
      exactly for the attempt on record, and accepted again only if it is the one applied last. */
  lemma MarksAndFinalizesExactly(job: Job, receipt: Receipt, now: int)
    requires ValidJob(job)
    ensures var onRecord := job.lease.Some? && job.lease.value.attempt == receipt.attempt;
            var marked, finalized := MarkStarted(job, receipt.attempt, now), Finalize(AsWritten, job, receipt, now);
            && (marked.Some? <==> onRecord && job.lease.value.phase != HeldQueryOnly)
            && (marked.Some? ==>
                  marked.value == job.(lease := Some(job.lease.value.(phase := HeldMutationStarted)), updatedAt := now))
            && (finalized.Applied? <==> onRecord && receipt.binding == job.identity.binding)
            && (finalized.Foreign? <==> onRecord && receipt.binding != job.identity.binding)
            && (finalized.AlreadyApplied? <==> !onRecord && job.last.Some? && job.last.value.digest.receipt == receipt)
            && (finalized.Applied? ==>
                  && finalized.job == job.(state := receipt.outcome.state, lease := None, updatedAt := now,
                       last := Some(LastReceipt(receipt.attempt, ReceiptDigest(receipt))),
                       uncertainSince := finalized.job.uncertainSince)
                  && DatedBy(job.uncertainSince, receipt.outcome.state, now, finalized.job.uncertainSince))
  {
  }
}
