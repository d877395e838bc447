/** One whole attempt on one job, without interference, and its place in the protocol. */
module DeliveryAttempts {
  import opened Common
  import opened Delivery
  import opened NotionAdapter
  import opened DeliveryRuns

  /** The clock readings of one attempt. */
  datatype Times = Times(claimed: int, announced: int, recorded: int, finalized: int)

  /** `added` is what the attempt adds to the job's history. */
  datatype Attempted = Attempted(job: Job, receipts: map<AttemptId, Receipt>, raised: bool, added: seq<Entry>)
  {
    function After(before: seq<Entry>): Attempted {
      this.(added := before + added)
    }
  }

  /** The lease on record, if any, ends with the job in `state`. */
  function GivenUp(job: Job, receipts: map<AttemptId, Receipt>, state: State): seq<Entry> {
    if job.lease.None? then []
    else
      var lease := job.lease.value;
      [Ended(lease.attempt.number, lease.phase.HeldQueryOnly?, state,
             lease.attempt in receipts && receipts[lease.attempt].outcome.code == ABSENT_CODE)]
  }

  function Close(s: Setting, job: Job, receipts: map<AttemptId, Receipt>, worker: string, claim: Claim,
                 outcome: Outcome, started: bool, t: Times): Attempted
  {
    var receipt := Receipt(job.identity.binding, claim.attempt, worker, claim.previousState, outcome, claim.queryOnly,
                           started, claim.startedAt, t.recorded);
    if claim.attempt in receipts || !ValidReceipt(receipt) then Attempted(job, receipts, true, [])
    else
      var recorded := receipts[claim.attempt := receipt];
      match Finalize(s.variant, job, receipt, t.finalized)
      case Applied(after) => Attempted(after, recorded, false, GivenUp(job, recorded, after.state))
      case AlreadyApplied => Attempted(job, recorded, false, [])
      case _ => Attempted(job, recorded, true, [])
  }

  /** What follows a granted claim: look, announce and post if nothing is there, close. */
  function Proceed(s: Setting, held: Job, receipts: map<AttemptId, Receipt>, worker: string, claim: Claim,
                   seen: Surroundings, t: Times): Attempted
  {
    var verdict := BeforeMutation(held.identity, claim.queryOnly, seen);
    if !verdict.Announce? then Close(s, held, receipts, worker, claim, BeforeOutcome(verdict), false, t)
    else
      match MarkStarted(held, claim.attempt, t.announced)
      case None => Close(s, held, receipts, worker, claim, RAISED_BEFORE, false, t)
      case Some(marked) =>
        Close(s, marked, receipts, worker, claim, AfterMutation(marked.identity, seen), true, t)
        .After([Announced(claim.attempt.number), Posting(claim.attempt.number, true)])
  }

  function AttemptOnJob(s: Setting, job: Job, receipts: map<AttemptId, Receipt>, worker: string, seen: Surroundings,
                        t: Times): Attempted
  {
    match ClaimJob(s.variant, job, receipts, worker, t.claimed, s.leaseSeconds)
    case Refused => Attempted(job, receipts, false, [])
    case Recovered(after) => Attempted(after, receipts, false, GivenUp(job, receipts, after.state))
    case ForeignReceipt => Attempted(job, receipts, true, [])
    case Granted(held, claim) =>
      Proceed(s, held, receipts, worker, claim, seen, t)
      .After(GivenUp(job, receipts, claim.previousState) + [Claimed(claim.attempt.number, claim.queryOnly)])
  }

  // ---------- A whole attempt is a run of the protocol ----------

  ghost predicate Reaches(s: Setting, w: World, w': World) {
    exists events :: Run(s, w, events) == w'
  }

  lemma {:induction false} RunSnoc(s: Setting, w: World, events: seq<Event>, e: Event)
    ensures Run(s, w, events + [e]) == Next(s, Run(s, w, events), e)
    decreases |events|
  {
    if events == [] {
      assert Run(s, w, [e]) == Run(s, Next(s, w, e), []);
    } else {
      assert (events + [e])[1..] == events[1..] + [e];
      RunSnoc(s, Next(s, w, events[0]), events[1..], e);
    }
  }

  lemma ReachesNext(s: Setting, w: World, m: World, e: Event)
    requires Reaches(s, w, m)
    ensures Reaches(s, w, Next(s, m, e))
  {
    var events :| Run(s, w, events) == m;
    RunSnoc(s, w, events, e);
  }

  /** The clock is read and the worker takes one step. */
  lemma ReachesTimedStep(s: Setting, w: World, m: World, now: int, seen: Surroundings)
    requires Reaches(s, w, m) && 0 in m.workers
    ensures Reaches(s, w, Act(s, m.(now := now), 0, seen))
  {
    ReachesNext(s, w, m, Clock(now));
    ReachesNext(s, w, m.(now := now), Work(0, seen));
  }

  /** The worker can come to a world that shows the job and the receipts as in `after`, and in its history everything
      that `after` adds to `before`. */
  ghost predicate Attains(s: Setting, w: World, before: seq<Entry>, after: Attempted) {
    exists m :: Reaches(s, w, m) && m.job == after.job && m.receipts == after.receipts && m.history == before + after.added
  }

  lemma AttainsAfter(s: Setting, w: World, before: seq<Entry>, more: seq<Entry>, after: Attempted)
    requires Attains(s, w, before + more, after)
    ensures Attains(s, w, before, after.After(more))
  {
    assert (before + more) + after.added == before + (more + after.added);
  }

  lemma CloseReached(s: Setting, w: World, m: World, seen: Surroundings, t: Times)
    requires Reaches(s, w, m) && 0 in m.workers && m.workers[0].pc.ToRecord?
    ensures var k := m.workers[0];
            Attains(s, w, m.history, Close(s, m.job, m.receipts, k.name, k.pc.claim, k.pc.outcome, k.pc.started, t))
  {
    var k := m.workers[0];
    ReachesTimedStep(s, w, m, t.recorded, seen);
    var m1 := Act(s, m.(now := t.recorded), 0, seen);
    if m1.workers[0].pc.ToFinalize? {
      ReachesTimedStep(s, w, m1, t.finalized, seen);
      var m2 := Act(s, m1.(now := t.finalized), 0, seen);
      assert m2.job == Close(s, m.job, m.receipts, k.name, k.pc.claim, k.pc.outcome, k.pc.started, t).job;
    }
  }

  lemma AnnouncedReached(s: Setting, w: World, m: World, seen: Surroundings, t: Times)
    requires Reaches(s, w, m) && 0 in m.workers && m.workers[0].pc.ToAnnounce?
    ensures var k := m.workers[0];
            var after := match MarkStarted(m.job, k.pc.claim.attempt, t.announced)
                         case None => Close(s, m.job, m.receipts, k.name, k.pc.claim, RAISED_BEFORE, false, t)
                         case Some(marked) =>
                           Close(s, marked, m.receipts, k.name, k.pc.claim, AfterMutation(marked.identity, seen), true, t)
                           .After([Announced(k.pc.claim.attempt.number), Posting(k.pc.claim.attempt.number, true)]);
            Attains(s, w, m.history, after)
  {
    ReachesTimedStep(s, w, m, t.announced, seen);
    var m1 := Act(s, m.(now := t.announced), 0, seen);
    if m1.workers[0].pc.ToPost? {
      ReachesNext(s, w, m1, Work(0, seen));
      var m2, n := Next(s, m1, Work(0, seen)), m1.workers[0].pc.claim.attempt.number;
      CloseReached(s, w, m2, seen, t);
      assert m2.history == m.history + [Announced(n), Posting(n, true)];
      AttainsAfter(s, w, m.history, [Announced(n), Posting(n, true)],
                   Close(s, m2.job, m2.receipts, m2.workers[0].name, m2.workers[0].pc.claim, m2.workers[0].pc.outcome, true, t));
    } else {
      CloseReached(s, w, m1, seen, t);
    }
  }

  lemma DeliverReached(s: Setting, w: World, m: World, seen: Surroundings, t: Times)
    requires Reaches(s, w, m) && 0 in m.workers && m.workers[0].pc.ToDeliver?
    ensures var k := m.workers[0];
            Attains(s, w, m.history, Proceed(s, m.job, m.receipts, k.name, k.pc.claim, seen, t))
  {
    ReachesNext(s, w, m, Work(0, seen));
    var m1 := Next(s, m, Work(0, seen));
    if m1.workers[0].pc.ToAnnounce? {
      AnnouncedReached(s, w, m1, seen, t);
    } else {
      CloseReached(s, w, m1, seen, t);
    }
  }

  /** What the claim step adds. */
  lemma ClaimedReached(s: Setting, w: World, m: World, seen: Surroundings, t: Times)
    requires Reaches(s, w, m) && m.history == [] && 0 in m.workers && m.workers[0].pc.ToClaim? && !m.workers[0].resolving
    requires m.now == t.claimed
    ensures Attains(s, w, [], AttemptOnJob(s, m.job, m.receipts, m.workers[0].name, seen, t))
  {
    var k := m.workers[0];
    ReachesNext(s, w, m, Work(0, seen));
    var m1 := Next(s, m, Work(0, seen));
    match ClaimJob(s.variant, m.job, m.receipts, k.name, t.claimed, s.leaseSeconds)
    case Granted(held, claim) =>
      var before := GivenUp(m.job, m.receipts, claim.previousState) + [Claimed(claim.attempt.number, claim.queryOnly)];
      assert m1.history == [] + before;
      DeliverReached(s, w, m1, seen, t);
      AttainsAfter(s, w, [], before, Proceed(s, held, m.receipts, k.name, claim, seen, t));
    case Recovered(after) => assert m1.history == [] + GivenUp(m.job, m.receipts, after.state);
    case _ => assert m1.history == [] + [];
  }

  /** A whole attempt, however its clock readings fall, is a schedule of the protocol, which claims, announces, posts
      and ends as the attempt does. */
  lemma AttemptRefinesProtocol(s: Setting, job: Job, receipts: map<AttemptId, Receipt>, worker: string,
                               seen: Surroundings, t: Times)
    ensures Attains(s, World(job, receipts, 0, map[], []), [], AttemptOnJob(s, job, receipts, worker, seen, t))
  {
    var w := World(job, receipts, 0, map[], []);
    assert Run(s, w, []) == w;
    ReachesNext(s, w, w, Spawn(0, worker, false));
    var m := Next(s, w, Spawn(0, worker, false));
    ReachesNext(s, w, m, Clock(t.claimed));
    ClaimedReached(s, w, m.(now := t.claimed), seen, t);
  }

  /** The attempt left its receipt, and the job is in the state the receipt names. */
  predicate ClosedBy(receipts: map<AttemptId, Receipt>, a: AttemptId, after: Attempted) {
    && !after.raised && after.job.lease.None? && a !in receipts && a in after.receipts
    && after.receipts == receipts[a := after.receipts[a]]
    && after.job.state == after.receipts[a].outcome.state
    && after.job.last == Some(LastReceipt(a, ReceiptDigest(after.receipts[a])))
    && (after.receipts[a].mutationStarted ==> SafeAfterMutation(after.job.state) && !after.receipts[a].queryOnly)
  }

  lemma CloseCloses(s: Setting, job: Job, receipts: map<AttemptId, Receipt>, worker: string, claim: Claim,
                    outcome: Outcome, started: bool, t: Times)
    requires s.variant.AsWritten? && job.identity.binding.targetType.TargetNotion?
    requires LeasedTo(job, claim.attempt) && claim.attempt !in receipts
    requires claim.startedAt <= t.recorded && Claimable(claim.previousState) && EndsAttempt(outcome.state)
    requires claim.queryOnly <==> claim.previousState.Uncertain?
    requires started ==> SafeAfterMutation(outcome.state) && !claim.queryOnly
    ensures ClosedBy(receipts, claim.attempt, Close(s, job, receipts, worker, claim, outcome, started, t))
  {
  }

  lemma GrantHolds(s: Setting, job: Job, receipts: map<AttemptId, Receipt>, worker: string, now: int)
    requires ValidJob(job) && ClaimJob(s.variant, job, receipts, worker, now, s.leaseSeconds).Granted?
    ensures var granted := ClaimJob(s.variant, job, receipts, worker, now, s.leaseSeconds);
            && granted.claim.attempt == AttemptId(job.attemptCount + 1, worker, now)
            && LeasedTo(granted.job, granted.claim.attempt) && granted.job.identity == job.identity
            && granted.claim.startedAt == now && Claimable(granted.claim.previousState)
            && (granted.claim.queryOnly <==> granted.claim.previousState.Uncertain?)
            && granted.job.lease.value.phase == if granted.claim.queryOnly then HeldQueryOnly else HeldClaimed
  {
  }

  /** An attempt without interference never loses its lease: it leaves its receipt, and the job is in the
      state the receipt names; after an announcement that is never a postable one. */
  lemma UndisturbedAttemptCloses(s: Setting, job: Job, receipts: map<AttemptId, Receipt>, worker: string,
                                 seen: Surroundings, t: Times)
    requires s.variant.AsWritten? && ValidJob(job) && job.identity.binding.targetType.TargetNotion?
    requires t.claimed <= t.recorded && forall a | a in receipts :: a.number <= job.attemptCount
    requires ClaimJob(s.variant, job, receipts, worker, t.claimed, s.leaseSeconds).Granted?
    ensures ClosedBy(receipts, AttemptId(job.attemptCount + 1, worker, t.claimed),
                     AttemptOnJob(s, job, receipts, worker, seen, t))
  {
    GrantHolds(s, job, receipts, worker, t.claimed);
    var granted := ClaimJob(s.variant, job, receipts, worker, t.claimed, s.leaseSeconds);
    var held, claim := granted.job, granted.claim;
    var verdict := BeforeMutation(held.identity, claim.queryOnly, seen);
    if verdict.Announce? {
      QueryOnlyEndsRetryableExactly(held.identity, seen);
      AfterMutationIsSafe(held.identity, seen);
      var marked := MarkStarted(held, claim.attempt, t.announced).value;
      CloseCloses(s, marked, receipts, worker, claim, AfterMutation(marked.identity, seen), true, t);
    } else {
      CloseCloses(s, held, receipts, worker, claim, BeforeOutcome(verdict), false, t);
    }
  }
}
