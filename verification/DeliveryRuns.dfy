/** One Notion job worked on by many workers: every claim, announcement, post and crash is a step. */
module DeliveryRuns {
  import opened Common
  import opened Delivery
  import opened NotionAdapter

  datatype Setting = Setting(variant: Variant, leaseSeconds: int)

  /** The program points of `attempt`, and of `resolve_confirmed_absent` around it. */
  datatype Pc =
    | ToResolve
    | ToClaim
    | ToDeliver(claim: Claim)
    | ToAnnounce(claim: Claim)
    | ToPost(claim: Claim)
    | ToRecord(claim: Claim, outcome: Outcome, started: bool)
    | ToFinalize(claim: Claim, receipt: Receipt)
    | ToCheckEvidence
    | ToConfirm(evidence: nat)
    | Done

  datatype Worker = Worker(name: string, resolving: bool, pc: Pc) {
    function Returned(): Worker {
      this.(pc := if resolving then ToCheckEvidence else Done)
    }
  }

  predicate HasClaim(pc: Pc) {
    pc.ToDeliver? || pc.ToAnnounce? || pc.ToPost? || pc.ToRecord? || pc.ToFinalize?
  }

  /** What happened to the job, oldest first. `number` is the attempt number; `absent` says that the attempt's receipt
      shows a completed query without a match; `held` that the attempt still had its lease when it posted, which nothing
      checks; `evidence` is the attempt on which a confirmation relies. */
  datatype Entry =
    | QuarantineOver(due: int, at: int)
    | Claimed(number: nat, queryOnly: bool)
    | Announced(number: nat)
    | Posting(number: nat, held: bool)
    | Ended(number: nat, queryOnly: bool, state: State, absent: bool)
    | ConfirmedAbsent(evidence: nat)
    | Clash

  datatype World = World(job: Job, receipts: map<AttemptId, Receipt>, now: int, workers: map<nat, Worker>,
                         history: seq<Entry>)

  function Initial(id: Identity, now: int): World {
    World(FreshJob(id, now), map[], now, map[], [])
  }

  /** The lease on record is given up, by its receipt or by its expiry. */
  function EndedBy(w: World, after: State): Entry
    requires w.job.lease.Some?
  {
    var lease := w.job.lease.value;
    Ended(lease.attempt.number, lease.phase.HeldQueryOnly?, after,
          lease.attempt in w.receipts && w.receipts[lease.attempt].outcome.code == ABSENT_CODE)
  }

  function StepResolve(w: World, id: nat, k: Worker): World {
    if QuarantineElapsed(w.job, w.now) then
      w.(workers := w.workers[id := k.(pc := ToClaim)],
         history := w.history + [QuarantineOver(w.job.uncertainSince.value + w.job.identity.quarantineSeconds, w.now)])
    else w.(workers := w.workers[id := k.(pc := Done)])
  }

  function StepClaim(s: Setting, w: World, id: nat, k: Worker): World {
    match ClaimJob(s.variant, w.job, w.receipts, k.name, w.now, s.leaseSeconds)
    case Refused => w.(workers := w.workers[id := k.Returned()])
    case ForeignReceipt => w.(workers := w.workers[id := k.(pc := Done)])
    case Recovered(job) =>
      var ended := if w.job.lease.Some? then [EndedBy(w, job.state)] else [];
      w.(job := job, workers := w.workers[id := k.Returned()], history := w.history + ended)
    case Granted(job, claim) =>
      var ended := if w.job.lease.Some? then [EndedBy(w, claim.previousState)] else [];
      w.(job := job, workers := w.workers[id := k.(pc := ToDeliver(claim))],
         history := w.history + ended + [Claimed(claim.attempt.number, claim.queryOnly)])
  }

  function StepDeliver(w: World, id: nat, k: Worker, claim: Claim, seen: Surroundings): World {
    var verdict := BeforeMutation(w.job.identity, claim.queryOnly, seen);
    var pc := if verdict.Announce? then ToAnnounce(claim) else ToRecord(claim, BeforeOutcome(verdict), false);
    w.(workers := w.workers[id := k.(pc := pc)])
  }

  function StepAnnounce(w: World, id: nat, k: Worker, claim: Claim): World {
    match MarkStarted(w.job, claim.attempt, w.now)
    case None => w.(workers := w.workers[id := k.(pc := ToRecord(claim, RAISED_BEFORE, false))])
    case Some(job) =>
      w.(job := job, workers := w.workers[id := k.(pc := ToPost(claim))],
         history := w.history + [Announced(claim.attempt.number)])
  }

  function StepPost(w: World, id: nat, k: Worker, claim: Claim, seen: Surroundings): World {
    w.(workers := w.workers[id := k.(pc := ToRecord(claim, AfterMutation(w.job.identity, seen), true))],
       history := w.history + [Posting(claim.attempt.number, LeasedTo(w.job, claim.attempt))])
  }

  function ReceiptOf(w: World, k: Worker, claim: Claim, outcome: Outcome, started: bool): Receipt {
    Receipt(w.job.identity.binding, claim.attempt, k.name, claim.previousState, outcome, claim.queryOnly, started,
            claim.startedAt, w.now)
  }

  function StepRecord(w: World, id: nat, k: Worker, claim: Claim, outcome: Outcome, started: bool): World {
    var receipt := ReceiptOf(w, k, claim, outcome, started);
    if claim.attempt in w.receipts || !ValidReceipt(receipt) then w.(workers := w.workers[id := k.(pc := Done)])
    else w.(receipts := w.receipts[claim.attempt := receipt],
            workers := w.workers[id := k.(pc := ToFinalize(claim, receipt))])
  }

  function StepFinalize(s: Setting, w: World, id: nat, k: Worker, receipt: Receipt): World {
    match Finalize(s.variant, w.job, receipt, w.now)
    case Applied(job) =>
      var ended := if w.job.lease.Some? then [EndedBy(w, job.state)] else [];
      w.(job := job, workers := w.workers[id := k.Returned()], history := w.history + ended)
    case AlreadyApplied => w.(workers := w.workers[id := k.Returned()])
    case _ => w.(workers := w.workers[id := k.(pc := Done)])
  }

  /** The last attempt's receipt shows a completed query without a match. */
  predicate AbsenceRecorded(job: Job, receipts: map<AttemptId, Receipt>) {
    && job.state.Uncertain? && job.last.Some? && job.last.value.attempt in receipts
    && receipts[job.last.value.attempt].outcome.code == ABSENT_CODE
  }

  /** The job read after the attempt decides whether its absence may be confirmed, and by which attempt. */
  function StepCheckEvidence(w: World, id: nat, k: Worker): World {
    var pc := if AbsenceRecorded(w.job, w.receipts) then ToConfirm(w.job.last.value.attempt.number) else Done;
    w.(workers := w.workers[id := k.(pc := pc)])
  }

  /** What is checked again under the lock, after the evidence was read. */
  predicate StillConfirmable(s: Setting, job: Job, evidence: nat) {
    && job.state.Uncertain?
    && (s.variant.StickyRechecked? ==> job.last.Some? && job.last.value.attempt.number == evidence)
  }

  function StepConfirm(s: Setting, w: World, id: nat, k: Worker, evidence: nat): World {
    var done := w.workers[id := k.(pc := Done)];
    if StillConfirmable(s, w.job, evidence) then
      w.(job := ConfirmAbsent(w.job, w.now), workers := done, history := w.history + [ConfirmedAbsent(evidence)])
    else w.(workers := done)
  }

  function Act(s: Setting, w: World, id: nat, seen: Surroundings): World
    requires id in w.workers
  {
    var k := w.workers[id];
    match k.pc
    case ToResolve => StepResolve(w, id, k)
    case ToClaim => StepClaim(s, w, id, k)
    case ToDeliver(claim) => StepDeliver(w, id, k, claim, seen)
    case ToAnnounce(claim) => StepAnnounce(w, id, k, claim)
    case ToPost(claim) => StepPost(w, id, k, claim, seen)
    case ToRecord(claim, outcome, started) => StepRecord(w, id, k, claim, outcome, started)
    case ToFinalize(_, receipt) => StepFinalize(s, w, id, k, receipt)
    case ToCheckEvidence => StepCheckEvidence(w, id, k)
    case ToConfirm(evidence) => StepConfirm(s, w, id, k, evidence)
    case Done => w
  }

  datatype Event =
    | Work(id: nat, seen: Surroundings)
    | Crash(id: nat)
    | Spawn(id: nat, name: string, resolving: bool)
    | Clock(now: int)
    | Reenqueue(identity: Identity)

  function Next(s: Setting, w: World, e: Event): World {
    match e
    case Work(id, seen) => if id in w.workers then Act(s, w, id, seen) else w
    case Crash(id) => w.(workers := w.workers - {id})
    case Spawn(id, name, resolving) =>
      if id in w.workers then w
      else w.(workers := w.workers[id := Worker(name, resolving, if resolving then ToResolve else ToClaim)])
    case Clock(now) => w.(now := now)
    case Reenqueue(identity) =>
      match Enqueue(Some(w.job), identity, w.now)
      case Clashed(job) => w.(job := job, history := w.history + [Clash])
      case other => w.(job := other.job)
  }

  function Run(s: Setting, w: World, events: seq<Event>): World
    decreases |events|
  {
    if events == [] then w else Run(s, Next(s, w, events[0]), events[1..])
  }
}
