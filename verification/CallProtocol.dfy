/** Concurrent workers executing logical model calls over one shared store.
    Each worker advances one atomic step at a time; exclusive creation of a file is the only
    synchronisation; workers may crash anywhere and be started again with the same call. */
module CallProtocol {
  import opened Common
  import opened AttemptIds
  import opened ModelCalls
  import opened RunBudget
  import TokenUsage

  datatype CallOutcome =
    | Returned(response: Response)
    | NotSentRaised
    | RejectedRaised
    | PartialRaised
    | UncertainRaised(partialSeen: bool)
    | BudgetRaised(code: ErrorCode)
    | ConflictRaised
    | IntegrityRaised

  /** The program points of one attempt and of the retry loop around it. */
  datatype Pc =
    | CheckReceipt
    | CheckIntent
    | Claim
    | ClaimLost
    | ReserveBudget
    | StoreRejectedArtifact(code: ErrorCode)
    | StoreRejectedReceipt(code: ErrorCode)
    | Invoke
    | StoreArtifact(reply: Reply)
    | StoreReceipt(reply: Reply)
    | Settle(reply: Reply)
    | Finished(outcome: CallOutcome)
    | Stopped(outcome: CallOutcome)

  datatype Worker = Worker(call: Call, maxAttempts: nat, attempt: nat, claimedAt: int, pc: Pc) {
    function AttemptId(): string {
      AttemptName(call.callId, attempt)
    }

    function OwnIntent(): Intent {
      IntentFor(call, attempt, claimedAt)
    }

    function Finish(outcome: CallOutcome): Worker {
      this.(pc := Finished(outcome))
    }
  }

  /** Everything one step does not decide by itself: the tracker's answers, the provider's reply,
      the clock, whether time remains for a retry, and how an unlabelled error text is classified. */
  datatype Choice = Choice(reserveRefusal: Option<ErrorCode>, settleRefusal: Option<ErrorCode>, reply: Reply,
                           now: int, timeRemains: bool, textLooksTransient: bool)

  // ---------- One attempt ----------

  function Replay(store: Store, worker: Worker, choice: Choice): CallOutcome {
    var a := worker.AttemptId();
    if a !in store.receipts || a !in store.intents || !Linked(store.intents[a], store.receipts[a]) then IntegrityRaised
    else if !Expected(store.intents[a], worker.call, worker.attempt) then ConflictRaised
    else
      var response := LoadResponse(store, a);
      match store.receipts[a].status
      case PartialFailed =>
        if choice.reserveRefusal.Some? then BudgetRaised(choice.reserveRefusal.value)
        else if response.None? then IntegrityRaised
        else PartialRaised
      case NotSent => if response.None? then IntegrityRaised else NotSentRaised
      case ProviderRejected => if response.None? then IntegrityRaised else RejectedRaised
      case BudgetRejected => IntegrityRaised
      case Succeeded =>
        if choice.reserveRefusal.Some? then BudgetRaised(choice.reserveRefusal.value)
        else if response.None? then IntegrityRaised
        else if choice.settleRefusal.Some? then BudgetRaised(choice.settleRefusal.value)
        else Returned(response.value)
  }

  /** The intent is there but not its receipt. */
  function Unresolved(store: Store, worker: Worker, choice: Choice): CallOutcome {
    var a := worker.AttemptId();
    if a !in store.intents || !Expected(store.intents[a], worker.call, worker.attempt) then ConflictRaised
    else if choice.reserveRefusal.Some? then BudgetRaised(choice.reserveRefusal.value)
    else UncertainRaised(false)
  }

  /** Recording a receipt re-reads the intent, checks the link and creates the file once. */
  function RecordReceipt(store: Store, receipt: Receipt): Option<Store> {
    if receipt.attemptId !in store.intents || !Linked(store.intents[receipt.attemptId], receipt) then None
    else
      match CreateOnce(store.receipts, receipt.attemptId, receipt)
      case Conflicting => None
      case Created(receipts) => Some(store.(receipts := receipts))
  }

  function PersistArtifact(store: Store, attemptId: string, text: string): Option<Store> {
    match CreateOnce(store.artifacts, attemptId, text)
    case Conflicting => None
    case Created(artifacts) => Some(store.(artifacts := artifacts))
  }

  /** A receipt goes on file exactly beside the intent whose ids and digest it names, unless another receipt is there; an
      artifact exactly unless another text is there. */
  lemma RecordsExactly(store: Store, receipt: Receipt, text: string)
    ensures var a := receipt.attemptId;
            var recorded, persisted := RecordReceipt(store, receipt), PersistArtifact(store, a, text);
            && (recorded.Some? <==>
                  && a in store.intents && store.intents[a].attemptId == a && store.intents[a].callId == receipt.callId
                  && receipt.intentHash.intent == store.intents[a]
                  && (a !in store.receipts || store.receipts[a] == receipt))
            && (recorded.Some? ==> recorded.value == store.(receipts := store.receipts[a := receipt]))
            && (persisted.Some? <==> (a !in store.artifacts || store.artifacts[a] == text))
            && (persisted.Some? ==> persisted.value == store.(artifacts := store.artifacts[a := text]))
  {
    CreatesExactly(store.receipts, receipt.attemptId, receipt);
    CreatesExactly(store.artifacts, receipt.attemptId, text);
  }

  function PartialSeen(reply: Reply): bool {
    reply.Failed? && reply.partialSeen
  }

  /** What the caller sees once the attempt is closed durably. */
  function ClosedOutcome(status: Status, response: Response, settleRefusal: Option<ErrorCode>): CallOutcome {
    match status
    case Succeeded => if settleRefusal.Some? then BudgetRaised(settleRefusal.value) else Returned(response)
    case NotSent => if settleRefusal.Some? then BudgetRaised(settleRefusal.value) else NotSentRaised
    case PartialFailed => PartialRaised
    case ProviderRejected => RejectedRaised
    case BudgetRejected => IntegrityRaised
  }

  function RejectedResponse(call: Call): Response {
    EmptyResponse(call, TokenUsage.EMPTY_USAGE, "budget_rejected")
  }

  function Retryable(outcome: CallOutcome, textLooksTransient: bool): bool {
    outcome.NotSentRaised? || (outcome.ConflictRaised? && textLooksTransient)
  }

  function Advance(store: Store, w: Worker, c: Choice): (Store, Worker) {
    var a := w.AttemptId();
    match w.pc
    case CheckReceipt =>
      if a in store.receipts then (store, w.Finish(Replay(store, w, c))) else (store, w.(pc := CheckIntent))
    case CheckIntent =>
      if a in store.intents then (store, w.Finish(Unresolved(store, w, c))) else (store, w.(pc := Claim))
    case Claim =>
      if a in store.intents then (store, w.(pc := ClaimLost))
      else
        var claimed := w.(claimedAt := c.now, pc := ReserveBudget);
        (store.(intents := store.intents[a := claimed.OwnIntent()]), claimed)
    case ClaimLost =>
      if a in store.receipts then (store, w.Finish(Replay(store, w, c)))
      else (store, w.Finish(Unresolved(store, w, c)))
    case ReserveBudget =>
      if c.reserveRefusal.Some? then (store, w.(pc := StoreRejectedArtifact(c.reserveRefusal.value)))
      else (store, w.(pc := Invoke))
    case StoreRejectedArtifact(code) =>
      (match PersistArtifact(store, a, RejectedResponse(w.call).text)
       case None => (store, w.Finish(ConflictRaised))
       case Some(next) => (next, w.(pc := StoreRejectedReceipt(code))))
    case StoreRejectedReceipt(code) =>
      (match RecordReceipt(store, ReceiptFor(w.OwnIntent(), RejectedResponse(w.call), BudgetRejected, c.now))
       case None => (store, w.Finish(ConflictRaised))
       case Some(next) => (next, w.Finish(BudgetRaised(code))))
    case Invoke =>
      if ClosingOf(w.call, c.reply).None? then (store, w.Finish(UncertainRaised(PartialSeen(c.reply))))
      else (store, w.(pc := StoreArtifact(c.reply)))
    case StoreArtifact(reply) =>
      (match ClosingOf(w.call, reply)
       case None => (store, w.Finish(UncertainRaised(PartialSeen(reply))))
       case Some(closing) =>
         match PersistArtifact(store, a, closing.response.text)
         case None => (store, w.Finish(UncertainRaised(PartialSeen(reply))))
         case Some(next) => (next, w.(pc := StoreReceipt(reply))))
    case StoreReceipt(reply) =>
      (match ClosingOf(w.call, reply)
       case None => (store, w.Finish(UncertainRaised(PartialSeen(reply))))
       case Some(closing) =>
         match RecordReceipt(store, ReceiptFor(w.OwnIntent(), closing.response, closing.status, c.now))
         case None => (store, w.Finish(UncertainRaised(PartialSeen(reply))))
         case Some(next) => (next, w.(pc := Settle(reply))))
    case Settle(reply) =>
      (match ClosingOf(w.call, reply)
       case None => (store, w.Finish(UncertainRaised(PartialSeen(reply))))
       case Some(closing) => (store, w.Finish(ClosedOutcome(closing.status, closing.response, c.settleRefusal))))
    case Finished(outcome) =>
      if Retryable(outcome, c.textLooksTransient) && w.attempt < w.maxAttempts && c.timeRemains
      then (store, w.(attempt := w.attempt + 1, pc := CheckReceipt))
      else (store, w.(pc := Stopped(outcome)))
    case Stopped(_) => (store, w)
  }

  // ---------- Many workers ----------

  /** `runs` counts provider invocations per attempt and `replies` remembers what each one did. */
  datatype World = World(store: Store, workers: map<nat, Worker>, runs: map<string, nat>, replies: map<string, Reply>)

  datatype Event =
    | Act(id: nat, choice: Choice)
    | Crash(id: nat)
    | Spawn(id: nat, call: Call, maxAttempts: nat)

  const INITIAL := World(EMPTY_STORE, map[], map[], map[])

  function Runs(world: World, attemptId: string): nat {
    if attemptId in world.runs then world.runs[attemptId] else 0
  }

  function Next(world: World, e: Event): World {
    match e
    case Crash(id) => world.(workers := world.workers - {id})
    case Spawn(id, call, maxAttempts) =>
      if id in world.workers || maxAttempts < 1 then world
      else world.(workers := world.workers[id := Worker(call, maxAttempts, 1, 0, CheckReceipt)])
    case Act(id, choice) =>
      if id !in world.workers then world
      else
        var w := world.workers[id];
        var moved := Advance(world.store, w, choice);
        var after := world.(store := moved.0, workers := world.workers[id := moved.1]);
        if w.pc.Invoke? then
          after.(runs := world.runs[w.AttemptId() := Runs(world, w.AttemptId()) + 1],
                 replies := world.replies[w.AttemptId() := choice.reply])
        else after
  }

  function Execute(world: World, events: seq<Event>): World
    decreases |events|
  {
    if events == [] then world else Execute(Next(world, events[0]), events[1..])
  }
}
