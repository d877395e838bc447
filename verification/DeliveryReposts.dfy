/** Runs in which a job is posted again too early: without a confirmed absence, on evidence from before the last post, and
    by a worker that has lost its lease. */
module DeliveryReposts {
  import opened Common
  import opened Delivery
  import opened NotionAdapter
  import opened DeliveryRuns
  import opened DeliverySafety
  import opened DeliveryEvidence
  import opened DeliveryTraces
  import opened DeliveryReopening

  // ---------- Building blocks ----------

  function NothingVisible(id: Identity): Surroundings {
    Surroundings(true, id.databaseId, SchemaFits, true, Pages([]), PostRaised, QueryFailed)
  }

  const NO_ADAPTER := Surroundings(false, "", SchemaUnavailable, false, QueryFailed, PostRaised, QueryFailed)

  /** A reachable world whose job holds no lease and has had `attempts` attempts; worker ids from `unused` on are unused. */
  ghost predicate Between(w: World, identity: Identity, unused: nat, attempts: nat) {
    && Safe(w) && Dated(w.job) && w.job.identity == identity && identity.binding.targetType.TargetNotion?
    && w.job.lease.None? && w.job.attemptCount == attempts && forall i | i in w.workers :: i < unused
  }

  /** `w'` is later, shows `added`, and the workers of `w` are as they were. */
  ghost predicate Extends(w: World, w': World, added: seq<Entry>) {
    w'.history == w.history + added && forall i | i in w.workers :: i in w'.workers && w'.workers[i] == w.workers[i]
  }

  lemma RunOne(s: Setting, w: World, e: Event)
    ensures Run(s, w, [e]) == Next(s, w, e)
  {
    assert Run(s, w, [e]) == Run(s, Next(s, w, e), []);
  }

  lemma StaysBetween(s: Setting, w: World, events: seq<Event>, identity: Identity, unused: nat, next: nat, attempts: nat)
    requires Between(w, identity, unused, w.job.attemptCount)
    requires Run(s, w, events).job.lease.None? && Run(s, w, events).job.attemptCount == attempts
    requires forall i | i in Run(s, w, events).workers :: i < next
    ensures Between(Run(s, w, events), identity, next, attempts)
  {
    RunKeeps(s, w, events);
    DatedRun(s, w, events);
    IdentityKept(s, w, events);
  }

  /** The attempt of the new worker `id` has ended, and nobody else moved. */
  lemma AttemptAdds(s: Setting, w: World, events: seq<Event>, identity: Identity, id: nat, k: Worker, added: seq<Entry>,
                    outcome: Outcome)
    requires Between(w, identity, id, w.job.attemptCount)
    requires AttemptEnded(WithWorker(w, id, k), Run(s, w, events), id, k, added, outcome)
    ensures Between(Run(s, w, events), identity, id + 1, w.job.attemptCount + 1) && Extends(w, Run(s, w, events), added)
  {
    StaysBetween(s, w, events, identity, id, id + 1, w.job.attemptCount + 1);
  }

  lemma FreshIsClaiming(w: World, identity: Identity, id: nat, attempts: nat, k: Worker)
    requires Between(w, identity, id, attempts) && Claimable(w.job.state) && k.pc.ToClaim? && !k.resolving
    ensures ReadyToClaim(WithWorker(w, id, k), id, k) && NewAttempts(WithWorker(w, id, k))
  {
    SpawnTells(w, id, k);
  }

  lemma NothingIsVisible(identity: Identity)
    requires identity.binding.targetType.TargetNotion?
    ensures BeforeMutation(identity, false, NothingVisible(identity)).Announce?
    ensures BeforeMutation(identity, true, NothingVisible(identity)) == Decided(Outcome(Uncertain, ABSENT_CODE))
    ensures !Misconfigured(identity, NothingVisible(identity))
    ensures AfterMutation(identity, NothingVisible(identity)) == Outcome(Uncertain, "notion_post_uncertain")
    ensures BeforeMutation(identity, true, NO_ADAPTER) == Decided(Outcome(RetryableFailed, "delivery_adapter_missing"))
    ensures "delivery_adapter_missing" != ABSENT_CODE
  {
  }

  /** A reconciliation posts, and the post times out. */
  lemma PostOnce(s: Setting, w: World, identity: Identity, id: nat, attempts: nat) returns (events: seq<Event>)
    requires Between(w, identity, id, attempts) && (w.job.state.Pending? || w.job.state.RetryableFailed?)
    ensures var w', n := Run(s, w, events), attempts + 1;
            && Between(w', identity, id + 1, n) && w'.job.state.Uncertain?
            && Extends(w, w', [Claimed(n, false), Announced(n), Posting(n, true), Ended(n, false, Uncertain, false)])
  {
    var k, seen := Worker("w", false, ToClaim), NothingVisible(identity);
    events := Uninterrupted(id, "w", seen, 6);
    Started(s, w, id, "w", seen, 6);
    FreshIsClaiming(w, identity, id, attempts, k);
    NothingIsVisible(identity);
    PostedAttemptEnds(s, WithWorker(w, id, k), id, k, seen);
    AttemptAdds(s, w, events, identity, id, k,
                [Claimed(attempts + 1, false), Announced(attempts + 1), Posting(attempts + 1, true),
                 Ended(attempts + 1, false, Uncertain, false)], AfterMutation(identity, seen));
  }

  lemma AdapterlessAttemptEnds(s: Setting, w: World, id: nat, k: Worker, n: nat)
    requires NewAttempts(w) && s.variant.AsWritten? && ReadyToClaim(w, id, k) && w.job.state.Uncertain?
    requires w.job.identity.binding.targetType.TargetNotion? && n == w.job.attemptCount + 1
    ensures AttemptEnded(w, Run(s, w, Steps(id, NO_ADAPTER, 4)), id, k,
                         [Claimed(n, true), Ended(n, true, RetryableFailed, false)],
                         Outcome(RetryableFailed, "delivery_adapter_missing"))
  {
    NothingIsVisible(w.job.identity);
    UncertainAttemptEnds(s, w, id, k, NO_ADAPTER);
  }

  /** A reconciliation runs without a configured adapter. */
  lemma ReopenOnce(s: Setting, w: World, identity: Identity, id: nat, attempts: nat) returns (events: seq<Event>)
    requires s.variant.AsWritten? && Between(w, identity, id, attempts) && w.job.state.Uncertain?
    ensures var w', n := Run(s, w, events), attempts + 1;
            && Between(w', identity, id + 1, n) && w'.job.state.RetryableFailed?
            && Extends(w, w', [Claimed(n, true), Ended(n, true, RetryableFailed, false)])
  {
    var k := Worker("w", false, ToClaim);
    events := Uninterrupted(id, "w", NO_ADAPTER, 4);
    Started(s, w, id, "w", NO_ADAPTER, 4);
    FreshIsClaiming(w, identity, id, attempts, k);
    AdapterlessAttemptEnds(s, WithWorker(w, id, k), id, k, attempts + 1);
    AttemptAdds(s, w, events, identity, id, k,
                [Claimed(attempts + 1, true), Ended(attempts + 1, true, RetryableFailed, false)],
                Outcome(RetryableFailed, "delivery_adapter_missing"));
  }

  lemma ResolverOpens(s: Setting, w: World, identity: Identity, id: nat, due: int, seen: Surroundings) returns (m: World)
    requires w.job.identity == identity && id !in w.workers && w.job.state.Uncertain? && w.job.lease.None? && NewAttempts(w)
    requires w.job.uncertainSince == Some(due - identity.quarantineSeconds)
    ensures ReadyToClaim(m, id, Worker("r", true, ToClaim)) && NewAttempts(m)
    ensures m == Run(s, w, [Clock(due), Spawn(id, "r", true), Work(id, seen)])
    ensures m == w.(now := due, workers := w.workers[id := Worker("r", true, ToClaim)],
                    history := w.history + [QuarantineOver(due, due)])
  {
    var w1 := w.(now := due);
    var w2 := WithWorker(w1, id, Worker("r", true, ToResolve));
    m := Next(s, w2, Work(id, seen));
    assert [Clock(due), Spawn(id, "r", true), Work(id, seen)][1..] == [Spawn(id, "r", true), Work(id, seen)];
    assert [Spawn(id, "r", true), Work(id, seen)][1..] == [Work(id, seen)];
    RunOne(s, w2, Work(id, seen));
    assert w2.workers[id := Worker("r", true, ToClaim)] == w.workers[id := Worker("r", true, ToClaim)];
  }

  lemma HasQueried(w: World, m: World, w': World, id: nat, k: Worker, n: nat, due: int)
    requires k.resolving && n == m.job.attemptCount + 1
    requires m.workers == w.workers[id := k] && m.history == w.history + [QuarantineOver(due, due)]
    requires AttemptEnded(m, w', id, k, [Claimed(n, true), Ended(n, true, Uncertain, true)], Outcome(Uncertain, ABSENT_CODE))
    ensures AbsenceRecorded(w'.job, w'.receipts) && w'.job.last.value.attempt.number == n
    ensures w'.history == w.history + [QuarantineOver(due, due), Claimed(n, true), Ended(n, true, Uncertain, true)]
    ensures w'.workers == w.workers[id := k.(pc := ToCheckEvidence)]
  {
    assert m.workers[id := k.Returned()] == w.workers[id := k.Returned()];
  }

  /** The resolver's own attempt ended with a completed query without a match; it has not read the job yet. */
  lemma ResolverQueries(s: Setting, w: World, identity: Identity, id: nat, attempts: nat, due: int)
    returns (events: seq<Event>)
    requires w.job.identity == identity && identity.binding.targetType.TargetNotion? && id !in w.workers
    requires w.job.state.Uncertain? && w.job.lease.None? && w.job.attemptCount == attempts && NewAttempts(w)
    requires w.job.uncertainSince == Some(due - identity.quarantineSeconds)
    ensures var w', n := Run(s, w, events), attempts + 1;
            && w'.job.lease.None? && w'.job.attemptCount == n && AbsenceRecorded(w'.job, w'.receipts)
            && w'.job.last.value.attempt.number == n
            && w'.history == w.history + [QuarantineOver(due, due), Claimed(n, true), Ended(n, true, Uncertain, true)]
            && w'.workers == w.workers[id := Worker("r", true, ToCheckEvidence)]
  {
    var k, seen, n := Worker("r", true, ToClaim), NothingVisible(identity), attempts + 1;
    var opening := [Clock(due), Spawn(id, "r", true), Work(id, seen)];
    var m := ResolverOpens(s, w, identity, id, due, seen);
    NothingIsVisible(identity);
    UncertainAttemptEnds(s, m, id, k, seen);
    RunConcat(s, w, opening, Steps(id, seen, 4));
    events := opening + Steps(id, seen, 4);
    HasQueried(w, m, Run(s, w, events), id, k, n, due);
  }

  /** A resolver waits for the quarantine, queries without a match, and is about to confirm. */
  lemma ResolveUpToConfirm(s: Setting, w: World, identity: Identity, id: nat, attempts: nat, due: int)
    returns (events: seq<Event>)
    requires Between(w, identity, id, attempts) && w.job.state.Uncertain?
    requires w.job.uncertainSince == Some(due - identity.quarantineSeconds)
    ensures var w', n := Run(s, w, events), attempts + 1;
            && Between(w', identity, id + 1, n) && w'.job.state.Uncertain?
            && id in w'.workers && w'.workers[id].pc == ToConfirm(n)
            && Extends(w, w', [QuarantineOver(due, due), Claimed(n, true), Ended(n, true, Uncertain, true)])
  {
    var before := ResolverQueries(s, w, identity, id, attempts, due);
    var m := Run(s, w, before);
    events := before + [Work(id, NO_ADAPTER)];
    RunConcat(s, w, before, [Work(id, NO_ADAPTER)]);
    RunOne(s, m, Work(id, NO_ADAPTER));
    StaysBetween(s, w, events, identity, id, id + 1, attempts + 1);
  }

  /** The resolver confirms, whatever has happened since its query, unless the evidence is checked again. */
  lemma ConfirmNow(s: Setting, w: World, identity: Identity, id: nat, unused: nat, attempts: nat, evidence: nat)
    returns (events: seq<Event>)
    requires Between(w, identity, unused, attempts) && w.job.state.Uncertain?
    requires id in w.workers && w.workers[id].pc == ToConfirm(evidence) && StillConfirmable(s, w.job, evidence)
    ensures var w' := Run(s, w, events);
            && Between(w', identity, unused, attempts) && w'.job.state.Pending?
            && w'.history == w.history + [ConfirmedAbsent(evidence)]
            && forall i | i in w.workers && i != id :: i in w'.workers && w'.workers[i] == w.workers[i]
  {
    events := [Work(id, NO_ADAPTER)];
    RunOne(s, w, Work(id, NO_ADAPTER));
    StaysBetween(s, w, events, identity, unused, unused, attempts);
  }

  // ---------- A worker that stalls before it posts ----------

  /** What is left of an attempt whose worker stalls between announcing and posting, with one query after its lease. */
  function Lapsed(n: nat): seq<Entry> {
    [Claimed(n, false), Announced(n), Ended(n, false, Uncertain, false), Claimed(n + 1, true), Ended(n + 1, true, Uncertain, true)]
  }

  predicate AboutToPost(w: World, id: nat, n: nat) {
    id in w.workers && w.workers[id].pc.ToPost? && w.workers[id].pc.claim.attempt.number == n
  }

  /** In `m` the new worker `id` has announced attempt `n` and stalled until its lease has lapsed. */
  ghost predicate Stalled(w: World, m: World, id: nat, n: nat) {
    && m.job.state.Delivering? && m.job.lease.Some? && m.job.lease.value.phase.HeldMutationStarted?
    && m.job.lease.value.expiresAt <= m.now && m.job.lease.value.attempt.number == n == m.job.attemptCount
    && m.job.lease.value.attempt !in m.receipts && m.job.identity == w.job.identity && NewAttempts(m)
    && AboutToPost(m, id, n) && m.workers == w.workers[id := m.workers[id]]
    && m.history == w.history + [Claimed(n, false), Announced(n)]
  }

  lemma StallsAnnounced(s: Setting, w: World, identity: Identity, id: nat, attempts: nat) returns (events: seq<Event>)
    requires Between(w, identity, id, attempts) && (w.job.state.Pending? || w.job.state.RetryableFailed?)
    ensures Stalled(w, Run(s, w, events), id, attempts + 1)
  {
    var k, seen, later := Worker("w", false, ToClaim), NothingVisible(identity), Clock(w.now + s.leaseSeconds);
    Started(s, w, id, "w", seen, 3);
    FreshIsClaiming(w, identity, id, attempts, k);
    NothingIsVisible(identity);
    PostableJobIsAnnounced(s, WithWorker(w, id, k), id, k, seen);
    events := Uninterrupted(id, "w", seen, 3) + [later];
    RunConcat(s, w, Uninterrupted(id, "w", seen, 3), [later]);
    RunOne(s, Run(s, w, Uninterrupted(id, "w", seen, 3)), later);
  }

  /** The lease of an announced attempt has lapsed: the next claim finds the job uncertain. */
  lemma LapsedClaim(s: Setting, w: World, id: nat, k: Worker, seen: Surroundings) returns (m: World)
    requires id in w.workers && w.workers[id] == k && k.pc.ToClaim? && w.job.state.Delivering? && w.job.lease.Some?
    requires w.job.lease.value.phase.HeldMutationStarted? && w.job.lease.value.expiresAt <= w.now
    requires w.job.lease.value.attempt !in w.receipts
    ensures m == Settled(s, w) && ReadyToClaim(m, id, k) && m.job.state.Uncertain?
    ensures m.history == w.history + [Ended(w.job.lease.value.attempt.number, false, Uncertain, false)]
    ensures Run(s, w, Steps(id, seen, 4)) == Run(s, m, Steps(id, seen, 4))
  {
    m := Settled(s, w);
    GrantedStep(s, w, id, k);
    StepOn(s, w, id, seen, 0);
    ClaimStep(s, m, id, k, seen);
    SameFromFirstStep(s, w, m, id, seen, 4);
  }

  /** After the lapse another worker queries and finds nothing. */
  lemma LapsedAttemptEnds(s: Setting, w: World, id: nat, k: Worker, n: nat)
    requires id in w.workers && w.workers[id] == k && k.pc.ToClaim? && w.job.state.Delivering? && w.job.lease.Some?
    requires w.job.lease.value.phase.HeldMutationStarted? && w.job.lease.value.expiresAt <= w.now
    requires w.job.lease.value.attempt !in w.receipts && w.job.lease.value.attempt.number == n == w.job.attemptCount
    requires NewAttempts(w) && w.job.identity.binding.targetType.TargetNotion?
    ensures var w' := Run(s, w, Steps(id, NothingVisible(w.job.identity), 4));
            && w'.job.state.Uncertain? && w'.job.lease.None? && w'.job.attemptCount == n + 1
            && w'.history == w.history + [Ended(n, false, Uncertain, false), Claimed(n + 1, true), Ended(n + 1, true, Uncertain, true)]
            && w'.workers == w.workers[id := k.Returned()]
  {
    var seen := NothingVisible(w.job.identity);
    var m := LapsedClaim(s, w, id, k, seen);
    NothingIsVisible(w.job.identity);
    UncertainAttemptEnds(s, m, id, k, seen);
  }

  /** A stalled attempt lapses; the stalled worker has not moved when the other one is done. */
  lemma Lapses(s: Setting, w: World, m: World, identity: Identity, id: nat, n: nat) returns (events: seq<Event>)
    requires Stalled(w, m, id, n) && w.job.identity == identity && identity.binding.targetType.TargetNotion?
    requires forall i | i in w.workers :: i < id
    ensures var w' := Run(s, m, events);
            && w'.job.state.Uncertain? && w'.job.lease.None? && w'.job.attemptCount == n + 1
            && w'.history == w.history + Lapsed(n) && AboutToPost(w', id, n)
            && w'.workers == w.workers[id := m.workers[id]][id + 1 := Worker("q", false, Done)]
  {
    var k, seen := Worker("q", false, ToClaim), NothingVisible(identity);
    events := Uninterrupted(id + 1, "q", seen, 4);
    Started(s, m, id + 1, "q", seen, 4);
    LapsedAttemptEnds(s, WithWorker(m, id + 1, k), id + 1, k, n);
  }

  lemma StallAndLapse(s: Setting, w: World, identity: Identity, id: nat, attempts: nat) returns (events: seq<Event>)
    requires Between(w, identity, id, attempts) && (w.job.state.Pending? || w.job.state.RetryableFailed?)
    ensures var w', n := Run(s, w, events), attempts + 1;
            && Between(w', identity, id + 2, n + 1) && w'.job.state.Uncertain? && AboutToPost(w', id, n)
            && Extends(w, w', Lapsed(n))
  {
    var stall := StallsAnnounced(s, w, identity, id, attempts);
    var lapse := Lapses(s, w, Run(s, w, stall), identity, id, attempts + 1);
    events := stall + lapse;
    RunConcat(s, w, stall, lapse);
    StaysBetween(s, w, events, identity, id, id + 2, attempts + 2);
  }

  /** The stalled worker wakes up and posts, although its attempt ended long ago. */
  lemma LatePost(s: Setting, w: World, id: nat, n: nat) returns (events: seq<Event>)
    requires AboutToPost(w, id, n) && w.job.state.Uncertain?
    ensures Run(s, w, events).job == w.job && Run(s, w, events).history == w.history + [Posting(n, false)]
  {
    events := [Work(id, NO_ADAPTER)];
    RunOne(s, w, Work(id, NO_ADAPTER));
  }

  // ---------- Whole runs ----------

  /** Some schedule takes `w` to a world whose history is longer by `added` and whose job is uncertain. */
  ghost predicate CanAdd(s: Setting, w: World, added: seq<Entry>) {
    exists events :: Run(s, w, events).history == w.history + added && Run(s, w, events).job.state.Uncertain?
  }

  lemma ThenAdd(s: Setting, w: World, events: seq<Event>, first: seq<Entry>, rest: seq<Entry>)
    requires Run(s, w, events).history == w.history + first && CanAdd(s, Run(s, w, events), rest)
    ensures CanAdd(s, w, first + rest)
  {
    var m := Run(s, w, events);
    var more :| Run(s, m, more).history == m.history + rest && Run(s, m, more).job.state.Uncertain?;
    RunConcat(s, w, events, more);
    assert w.history + first + rest == w.history + (first + rest);
  }

  /** What one attempt that posts, and times out, adds. */
  function PostedAndUncertain(n: nat): seq<Entry> {
    [Claimed(n, false), Announced(n), Posting(n, true), Ended(n, false, Uncertain, false)]
  }

  function Reopened(n: nat): seq<Entry> {
    [Claimed(n, true), Ended(n, true, RetryableFailed, false)]
  }

  function Resolved(n: nat, due: int): seq<Entry> {
    [QuarantineOver(due, due), Claimed(n, true), Ended(n, true, Uncertain, true)]
  }

  lemma InitialBetween(identity: Identity, now: int)
    requires ValidIdentity(identity) && identity.binding.targetType.TargetNotion?
    ensures Between(Initial(identity, now), identity, 0, 0) && Initial(identity, now).job.state.Pending?
  {
  }

  lemma CanPost(s: Setting, w: World, identity: Identity, id: nat, n: nat)
    requires n > 0 && Between(w, identity, id, n - 1)
    requires w.job.state.Pending? || w.job.state.RetryableFailed?
    ensures CanAdd(s, w, PostedAndUncertain(n))
  {
    var events := PostOnce(s, w, identity, id, n - 1);
  }

  lemma CanReopenAndPost(s: Setting, w: World, identity: Identity)
    requires s.variant.AsWritten? && Between(w, identity, 1, 1) && w.job.state.Uncertain?
    ensures CanAdd(s, w, Reopened(2) + PostedAndUncertain(3))
  {
    var reopen := ReopenOnce(s, w, identity, 1, 1);
    CanPost(s, Run(s, w, reopen), identity, 2, 3);
    ThenAdd(s, w, reopen, Reopened(2), PostedAndUncertain(3));
  }

  /** Every Notion job has a run in which it is posted twice although its absence was never confirmed: the first post
      times out, one reconciliation runs without a configured adapter, and the next one posts. */
  lemma PostedTwiceWithoutConfirmation(s: Setting, identity: Identity, now: int)
    requires s.variant.AsWritten? && ValidIdentity(identity) && identity.binding.targetType.TargetNotion?
    ensures CanAdd(s, Initial(identity, now), PostedAndUncertain(1) + (Reopened(2) + PostedAndUncertain(3)))
  {
    InitialBetween(identity, now);
    var w := Initial(identity, now);
    var post := PostOnce(s, w, identity, 0, 0);
    CanReopenAndPost(s, Run(s, w, post), identity);
    ThenAdd(s, w, post, PostedAndUncertain(1), Reopened(2) + PostedAndUncertain(3));
  }

  /** A resolver holds evidence by attempt 2. */
  lemma OvertakenResolver(s: Setting, w: World, identity: Identity)
    requires s.variant.AsWritten? && Between(w, identity, 2, 2) && w.job.state.Uncertain?
    requires 1 in w.workers && w.workers[1].pc == ToConfirm(2)
    ensures CanAdd(s, w, Reopened(3) + (PostedAndUncertain(4) + ([ConfirmedAbsent(2)] + PostedAndUncertain(5))))
  {
    var reopen := ReopenOnce(s, w, identity, 2, 2);
    var w1 := Run(s, w, reopen);
    var post := PostOnce(s, w1, identity, 3, 3);
    var w2 := Run(s, w1, post);
    var confirm := ConfirmNow(s, w2, identity, 1, 4, 4, 2);
    CanPost(s, Run(s, w2, confirm), identity, 4, 5);
    ThenAdd(s, w2, confirm, [ConfirmedAbsent(2)], PostedAndUncertain(5));
    ThenAdd(s, w1, post, PostedAndUncertain(4), [ConfirmedAbsent(2)] + PostedAndUncertain(5));
    ThenAdd(s, w, reopen, Reopened(3), PostedAndUncertain(4) + ([ConfirmedAbsent(2)] + PostedAndUncertain(5)));
  }

  /** A resolver queries; a reconciliation without an adapter reopens the job, another one posts and times out; then
      the resolver confirms, on its old evidence, and the job is posted once more. */
  function StaleRun(due: int): seq<Entry> {
    PostedAndUncertain(1) + (Resolved(2, due)
      + (Reopened(3) + (PostedAndUncertain(4) + ([ConfirmedAbsent(2)] + PostedAndUncertain(5)))))
  }

  lemma CanGoStale(s: Setting, w: World, identity: Identity, due: int)
    requires s.variant.AsWritten? && Between(w, identity, 1, 1) && w.job.state.Uncertain?
    requires w.job.uncertainSince == Some(due - identity.quarantineSeconds)
    ensures CanAdd(s, w, Resolved(2, due) + (Reopened(3) + (PostedAndUncertain(4) + ([ConfirmedAbsent(2)] + PostedAndUncertain(5)))))
  {
    var resolve := ResolveUpToConfirm(s, w, identity, 1, 1, due);
    OvertakenResolver(s, Run(s, w, resolve), identity);
    ThenAdd(s, w, resolve, Resolved(2, due), Reopened(3) + (PostedAndUncertain(4) + ([ConfirmedAbsent(2)] + PostedAndUncertain(5))));
  }

  /** Every Notion job has a run in which two posts, by attempts 4 and 5, enclose a confirmed absence although nobody
      queried in between. */
  lemma PostedTwiceOnStaleEvidence(s: Setting, identity: Identity, now: int)
    requires s.variant.AsWritten? && ValidIdentity(identity) && identity.binding.targetType.TargetNotion?
    ensures exists due :: CanAdd(s, Initial(identity, now), StaleRun(due))
  {
    InitialBetween(identity, now);
    var w := Initial(identity, now);
    var post := PostOnce(s, w, identity, 0, 0);
    var w1 := Run(s, w, post);
    var due := w1.job.uncertainSince.value + identity.quarantineSeconds;
    CanGoStale(s, w1, identity, due);
    ThenAdd(s, w, post, PostedAndUncertain(1),
            Resolved(2, due) + (Reopened(3) + (PostedAndUncertain(4) + ([ConfirmedAbsent(2)] + PostedAndUncertain(5)))));
    assert CanAdd(s, w, StaleRun(due));
  }

  /** The absence is confirmed by attempt 3 and attempt 4 posts; then the worker of attempt 1 wakes up. */
  function LateEnd(due: int): seq<Entry> {
    Resolved(3, due) + ([ConfirmedAbsent(3)] + (PostedAndUncertain(4) + [Posting(1, false)]))
  }

  lemma CanPostTwice(s: Setting, w: World, identity: Identity)
    requires Between(w, identity, 3, 3) && w.job.state.Pending? && AboutToPost(w, 0, 1)
    ensures CanAdd(s, w, PostedAndUncertain(4) + [Posting(1, false)])
  {
    var post := PostOnce(s, w, identity, 3, 3);
    var late := LatePost(s, Run(s, w, post), 0, 1);
    assert CanAdd(s, Run(s, w, post), [Posting(1, false)]);
    ThenAdd(s, w, post, PostedAndUncertain(4), [Posting(1, false)]);
  }

  lemma CanEndLate(s: Setting, w: World, identity: Identity) returns (due: int)
    requires Between(w, identity, 2, 2) && w.job.state.Uncertain? && AboutToPost(w, 0, 1)
    ensures CanAdd(s, w, LateEnd(due))
  {
    due := w.job.uncertainSince.value + identity.quarantineSeconds;
    var resolve := ResolveUpToConfirm(s, w, identity, 2, 2, due);
    var w1 := Run(s, w, resolve);
    var confirm := ConfirmNow(s, w1, identity, 2, 3, 3, 3);
    CanPostTwice(s, Run(s, w1, confirm), identity);
    ThenAdd(s, w1, confirm, [ConfirmedAbsent(3)], PostedAndUncertain(4) + [Posting(1, false)]);
    ThenAdd(s, w, resolve, Resolved(3, due), [ConfirmedAbsent(3)] + (PostedAndUncertain(4) + [Posting(1, false)]));
  }

  lemma CanBeLate(s: Setting, w: World, identity: Identity) returns (due: int)
    requires Between(w, identity, 0, 0) && w.job.state.Pending?
    ensures CanAdd(s, w, Lapsed(1) + LateEnd(due))
  {
    var stall := StallAndLapse(s, w, identity, 0, 0);
    due := CanEndLate(s, Run(s, w, stall), identity);
    ThenAdd(s, w, stall, Lapsed(1), LateEnd(due));
  }

  /** Whatever the variant, every Notion job has a run that ends in two posts with neither a query nor a confirmation
      between them, the second while the job is uncertain: its worker announced and stalled, and its lease lapsed before
      it posted. */
  lemma PostedTwiceByALateWorker(s: Setting, identity: Identity, now: int)
    requires ValidIdentity(identity) && identity.binding.targetType.TargetNotion?
    ensures exists due :: CanAdd(s, Initial(identity, now), Lapsed(1) + LateEnd(due))
  {
    InitialBetween(identity, now);
    var due := CanBeLate(s, Initial(identity, now), identity);
  }
}
