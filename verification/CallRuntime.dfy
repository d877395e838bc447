/** One process executing attempts against the store with its own budget tracker:
    the big-step meaning of an attempt, its refinement into protocol steps, and the mutable runtime. */
module CallRuntime {
  import opened Common
  import opened AttemptIds
  import opened ModelCalls
  import opened RunBudget
  import opened CallProtocol

  datatype Tracked = Tracked(ledger: Option<Ledger>, refusal: Option<ErrorCode>)

  function RequestOf(intent: Intent): Request {
    Request(intent.attemptId, intent.callId, intent.reservedInput, intent.reservedOutput, intent.stage, 0.0)
  }

  function FromStep(step: Step): Tracked {
    Tracked(Some(step.ledger), if step.outcome.Refused? then Some(step.outcome.code) else None)
  }

  /** Without a tracker nothing is charged and nothing refused. */
  function TrackRestore(ledger: Option<Ledger>, intent: Intent, now: int): Tracked {
    if ledger.None? then Tracked(None, None) else FromStep(Restore(ledger.value, RequestOf(intent), now))
  }

  function TrackEnsure(ledger: Option<Ledger>, intent: Intent, now: int): Tracked {
    if ledger.None? then Tracked(None, None) else FromStep(Ensure(ledger.value, RequestOf(intent), now))
  }

  function TrackRecord(ledger: Option<Ledger>, intent: Intent, response: Response, now: int): Tracked {
    if ledger.None? then Tracked(None, None)
    else FromStep(Record(ledger.value, intent.attemptId, intent.callId, response.text, response.usage, now))
  }

  datatype Attempted = Attempted(store: Store, ledger: Option<Ledger>, outcome: CallOutcome, ran: bool)

  // ---------- Big steps ----------

  function ReplayReceipt(store: Store, ledger: Option<Ledger>, call: Call, attempt: nat, now: int): Attempted {
    var a := AttemptName(call.callId, attempt);
    if a !in store.receipts || a !in store.intents || !Linked(store.intents[a], store.receipts[a]) then
      Attempted(store, ledger, IntegrityRaised, false)
    else if !Expected(store.intents[a], call, attempt) then Attempted(store, ledger, ConflictRaised, false)
    else
      var intent, response := store.intents[a], LoadResponse(store, a);
      match store.receipts[a].status
      case PartialFailed =>
        var restored := TrackRestore(ledger, intent, now);
        Attempted(store, restored.ledger,
                  if restored.refusal.Some? then BudgetRaised(restored.refusal.value)
                  else if response.None? then IntegrityRaised else PartialRaised, false)
      case NotSent => Attempted(store, ledger, if response.None? then IntegrityRaised else NotSentRaised, false)
      case ProviderRejected => Attempted(store, ledger, if response.None? then IntegrityRaised else RejectedRaised, false)
      case BudgetRejected => Attempted(store, ledger, IntegrityRaised, false)
      case Succeeded =>
        var restored := TrackRestore(ledger, intent, now);
        if restored.refusal.Some? then Attempted(store, restored.ledger, BudgetRaised(restored.refusal.value), false)
        else if response.None? then Attempted(store, restored.ledger, IntegrityRaised, false)
        else
          var recorded := TrackRecord(restored.ledger, intent, response.value, now);
          Attempted(store, recorded.ledger,
                    if recorded.refusal.Some? then BudgetRaised(recorded.refusal.value) else Returned(response.value),
                    false)
  }

  function ReportUnresolved(store: Store, ledger: Option<Ledger>, call: Call, attempt: nat, now: int): Attempted {
    var a := AttemptName(call.callId, attempt);
    if a !in store.intents || !Expected(store.intents[a], call, attempt) then Attempted(store, ledger, ConflictRaised, false)
    else
      var restored := TrackRestore(ledger, store.intents[a], now);
      Attempted(store, restored.ledger,
                if restored.refusal.Some? then BudgetRaised(restored.refusal.value) else UncertainRaised(false), false)
  }

  /** Artifact first, then the receipt; `None` when either already exists with other content. */
  function Publish(store: Store, intent: Intent, response: Response, status: Status, now: int): (Store, bool) {
    match PersistArtifact(store, intent.attemptId, response.text)
    case None => (store, false)
    case Some(stored) =>
      match RecordReceipt(stored, ReceiptFor(intent, response, status, now))
      case None => (stored, false)
      case Some(closed) => (closed, true)
  }

  function CloseAttempt(store: Store, ledger: Option<Ledger>, intent: Intent, closing: Closing, reply: Reply, done: int)
    : Attempted
  {
    var published := Publish(store, intent, closing.response, closing.status, done);
    if !published.1 then Attempted(published.0, ledger, UncertainRaised(PartialSeen(reply)), true)
    else if closing.status.Succeeded? || closing.status.NotSent? then
      var recorded := TrackRecord(ledger, intent, closing.response, done);
      Attempted(published.0, recorded.ledger, ClosedOutcome(closing.status, closing.response, recorded.refusal), true)
    else Attempted(published.0, ledger, ClosedOutcome(closing.status, closing.response, None), true)
  }

  /** A first execution: claim, reserve, invoke, publish, settle. */
  function FirstExecution(store: Store, ledger: Option<Ledger>, call: Call, attempt: nat, reply: Reply, now: int, done: int)
    : Attempted
  {
    var intent := IntentFor(call, attempt, now);
    var claimed := store.(intents := store.intents[intent.attemptId := intent]);
    var reserved := TrackEnsure(ledger, intent, now);
    if reserved.refusal.Some? then
      var published := Publish(claimed, intent, RejectedResponse(call), BudgetRejected, done);
      Attempted(published.0, reserved.ledger,
                if published.1 then BudgetRaised(reserved.refusal.value) else ConflictRaised, false)
    else
      match ClosingOf(call, reply)
      case None => Attempted(claimed, reserved.ledger, UncertainRaised(PartialSeen(reply)), true)
      case Some(closing) => CloseAttempt(claimed, reserved.ledger, intent, closing, reply, done)
  }

  function ExecuteOnce(store: Store, ledger: Option<Ledger>, call: Call, attempt: nat, reply: Reply, now: int, done: int)
    : Attempted
  {
    var a := AttemptName(call.callId, attempt);
    if a in store.receipts then ReplayReceipt(store, ledger, call, attempt, now)
    else if a in store.intents then ReportUnresolved(store, ledger, call, attempt, now)
    else FirstExecution(store, ledger, call, attempt, reply, now, done)
  }

  // ---------- Refinement into protocol steps ----------

  predicate AfterProvider(pc: Pc) {
    pc.StoreRejectedArtifact? || pc.StoreRejectedReceipt? || pc.StoreArtifact? || pc.StoreReceipt? || pc.Settle?
  }

  datatype Driven = Driven(store: Store, worker: Worker, invocations: nat)

  /** Lets one worker run by itself until its attempt is finished: before the provider call with
      `early`, afterwards with `late`. */
  function Drive(store: Store, w: Worker, early: Choice, late: Choice, fuel: nat): Driven
    decreases fuel
  {
    if fuel == 0 || w.pc.Finished? then Driven(store, w, 0)
    else
      var next := Advance(store, w, if AfterProvider(w.pc) then late else early);
      var rest := Drive(next.0, next.1, early, late, fuel - 1);
      rest.(invocations := rest.invocations + (if w.pc.Invoke? then 1 else 0))
  }

  /** The first answer the tracker gives to this attempt. */
  function FirstAnswer(store: Store, ledger: Option<Ledger>, call: Call, attempt: nat, now: int): Tracked {
    var a := AttemptName(call.callId, attempt);
    if a in store.intents then TrackRestore(ledger, store.intents[a], now)
    else TrackEnsure(ledger, IntentFor(call, attempt, now), now)
  }

  /** The second answer, given when the response is settled. */
  function SecondAnswer(store: Store, ledger: Option<Ledger>, call: Call, attempt: nat, reply: Reply, now: int, done: int)
    : Tracked
  {
    var a := AttemptName(call.callId, attempt);
    var first := FirstAnswer(store, ledger, call, attempt, now);
    if a in store.intents then
      match LoadResponse(store, a)
      case None => first
      case Some(response) => TrackRecord(first.ledger, store.intents[a], response, now)
    else
      match ClosingOf(call, reply)
      case None => first
      case Some(closing) => TrackRecord(first.ledger, IntentFor(call, attempt, now), closing.response, done)
  }

  function EarlyChoice(store: Store, ledger: Option<Ledger>, call: Call, attempt: nat, reply: Reply, now: int, done: int)
    : Choice
  {
    Choice(FirstAnswer(store, ledger, call, attempt, now).refusal,
           SecondAnswer(store, ledger, call, attempt, reply, now, done).refusal, reply, now, true, false)
  }

  /** No attempt takes more steps than this. */
  const ATTEMPT_STEPS: nat := 8

  /** The evidence is intact: receipts and artifacts belong to intents filed under their own id. */
  predicate Intact(store: Store) {
    && store.receipts.Keys <= store.intents.Keys
    && store.artifacts.Keys <= store.intents.Keys
    && (forall a | a in store.intents :: store.intents[a].attemptId == a)
    && (forall a | a in store.receipts :: LoadResponse(store, a).Some?)
  }

  lemma DriveStep(store: Store, w: Worker, early: Choice, late: Choice, fuel: nat)
    requires fuel > 0 && !w.pc.Finished?
    ensures var next := Advance(store, w, if AfterProvider(w.pc) then late else early);
            var rest := Drive(next.0, next.1, early, late, fuel - 1);
            && Drive(store, w, early, late, fuel).store == rest.store
            && Drive(store, w, early, late, fuel).worker == rest.worker
            && Drive(store, w, early, late, fuel).invocations == rest.invocations + (if w.pc.Invoke? then 1 else 0)
  {
  }

  lemma DriveDone(store: Store, w: Worker, early: Choice, late: Choice, fuel: nat)
    requires w.pc.Finished?
    ensures Drive(store, w, early, late, fuel) == Driven(store, w, 0)
  {
  }

  /** A receipt is already there: one step, no invocation. */
  lemma ReplayRefines(store: Store, w: Worker, early: Choice, late: Choice, ledger: Option<Ledger>,
                      reply: Reply, now: int, done: int)
    requires Intact(store) && w.pc == CheckReceipt && w.AttemptId() in store.receipts
    requires early == EarlyChoice(store, ledger, w.call, w.attempt, reply, now, done)
    ensures var big := ExecuteOnce(store, ledger, w.call, w.attempt, reply, now, done);
            Drive(store, w, early, late, ATTEMPT_STEPS)
            == Driven(big.store, w.Finish(big.outcome), if big.ran then 1 else 0)
  {
    var big := ExecuteOnce(store, ledger, w.call, w.attempt, reply, now, done);
    DriveStep(store, w, early, late, 8);
    DriveDone(store, w.Finish(big.outcome), early, late, 7);
  }

  /** An intent is there without its receipt: two steps, no invocation. */
  lemma UnresolvedRefines(store: Store, w: Worker, early: Choice, late: Choice, ledger: Option<Ledger>,
                          reply: Reply, now: int, done: int)
    requires Intact(store) && w.pc == CheckReceipt && w.AttemptId() in store.intents && w.AttemptId() !in store.receipts
    requires early == EarlyChoice(store, ledger, w.call, w.attempt, reply, now, done)
    ensures var big := ExecuteOnce(store, ledger, w.call, w.attempt, reply, now, done);
            Drive(store, w, early, late, ATTEMPT_STEPS)
            == Driven(big.store, w.Finish(big.outcome), if big.ran then 1 else 0)
  {
    var big := ExecuteOnce(store, ledger, w.call, w.attempt, reply, now, done);
    DriveStep(store, w, early, late, 8);
    DriveStep(store, w.(pc := CheckIntent), early, late, 7);
    DriveDone(store, w.Finish(big.outcome), early, late, 6);
  }

  lemma KnownAttemptRefines(store: Store, w: Worker, early: Choice, late: Choice, ledger: Option<Ledger>,
                            reply: Reply, now: int, done: int)
    requires Intact(store) && w.pc == CheckReceipt && w.AttemptId() in store.intents
    requires early == EarlyChoice(store, ledger, w.call, w.attempt, reply, now, done)
    ensures var big := ExecuteOnce(store, ledger, w.call, w.attempt, reply, now, done);
            Drive(store, w, early, late, ATTEMPT_STEPS)
            == Driven(big.store, w.Finish(big.outcome), if big.ran then 1 else 0)
  {
    if w.AttemptId() in store.receipts {
      ReplayRefines(store, w, early, late, ledger, reply, now, done);
    } else {
      UnresolvedRefines(store, w, early, late, ledger, reply, now, done);
    }
  }

  /** The last steps: publish the refusal of the tracker. */
  lemma RejectedRefines(store: Store, w: Worker, early: Choice, late: Choice, code: ErrorCode)
    requires w.pc == StoreRejectedArtifact(code)
    ensures var published := Publish(store, w.OwnIntent(), RejectedResponse(w.call), BudgetRejected, late.now);
            Drive(store, w, early, late, 4)
            == Driven(published.0, w.Finish(if published.1 then BudgetRaised(code) else ConflictRaised), 0)
  {
    DriveStep(store, w, early, late, 4);
    var stored := PersistArtifact(store, w.AttemptId(), RejectedResponse(w.call).text);
    if stored.Some? {
      DriveStep(stored.value, w.(pc := StoreRejectedReceipt(code)), early, late, 3);
    }
  }

  /** The last steps: publish and settle what the provider did. */
  lemma CloseRefines(store: Store, w: Worker, early: Choice, late: Choice, reply: Reply, ledger: Option<Ledger>)
    requires w.pc == StoreArtifact(reply) && ClosingOf(w.call, reply).Some?
    requires late.settleRefusal == TrackRecord(ledger, w.OwnIntent(), ClosingOf(w.call, reply).value.response, late.now).refusal
    ensures var closed := CloseAttempt(store, ledger, w.OwnIntent(), ClosingOf(w.call, reply).value, reply, late.now);
            Drive(store, w, early, late, 3) == Driven(closed.store, w.Finish(closed.outcome), 0)
  {
    var closing := ClosingOf(w.call, reply).value;
    DriveStep(store, w, early, late, 3);
    var stored := PersistArtifact(store, w.AttemptId(), closing.response.text);
    if stored.Some? {
      ReceiptAndSettleDrive(stored.value, w.(pc := StoreReceipt(reply)), early, late, reply);
    }
  }

  /** The receipt is written and the tracker settles. */
  lemma ReceiptAndSettleDrive(store: Store, w: Worker, early: Choice, late: Choice, reply: Reply)
    requires w.pc == StoreReceipt(reply) && ClosingOf(w.call, reply).Some?
    ensures var closing := ClosingOf(w.call, reply).value;
            var closed := RecordReceipt(store, ReceiptFor(w.OwnIntent(), closing.response, closing.status, late.now));
            Drive(store, w, early, late, 2)
            == if closed.None? then Driven(store, w.Finish(UncertainRaised(PartialSeen(reply))), 0)
               else Driven(closed.value, w.Finish(ClosedOutcome(closing.status, closing.response, late.settleRefusal)), 0)
  {
    var closing := ClosingOf(w.call, reply).value;
    DriveStep(store, w, early, late, 2);
    var closed := RecordReceipt(store, ReceiptFor(w.OwnIntent(), closing.response, closing.status, late.now));
    if closed.Some? {
      DriveStep(closed.value, w.(pc := Settle(reply)), early, late, 1);
    }
  }

  /** Three steps create the intent. */
  lemma ClaimRefines(store: Store, w: Worker, early: Choice, late: Choice)
    requires w.pc == CheckReceipt && w.AttemptId() !in store.intents && w.AttemptId() !in store.receipts
    ensures var claimed := w.(claimedAt := early.now, pc := ReserveBudget);
            Drive(store, w, early, late, 8)
            == Drive(store.(intents := store.intents[w.AttemptId() := claimed.OwnIntent()]), claimed, early, late, 5)
  {
    DriveStep(store, w, early, late, 8);
    DriveStep(store, w.(pc := CheckIntent), early, late, 7);
    DriveStep(store, w.(pc := Claim), early, late, 6);
  }

  /** The remaining steps of a first execution, from the reservation on. */
  lemma ReservedRefines(store: Store, w: Worker, early: Choice, late: Choice, ledger: Option<Ledger>, reply: Reply)
    requires w.pc == ReserveBudget
    requires var reserved := TrackEnsure(ledger, w.OwnIntent(), early.now);
             && early.reserveRefusal == reserved.refusal && early.reply == reply
             && (ClosingOf(w.call, reply).Some? ==>
                   late.settleRefusal
                   == TrackRecord(reserved.ledger, w.OwnIntent(), ClosingOf(w.call, reply).value.response, late.now).refusal)
    ensures var reserved := TrackEnsure(ledger, w.OwnIntent(), early.now);
            Drive(store, w, early, late, 5) ==
            if reserved.refusal.Some? then
              var published := Publish(store, w.OwnIntent(), RejectedResponse(w.call), BudgetRejected, late.now);
              Driven(published.0, w.Finish(if published.1 then BudgetRaised(reserved.refusal.value) else ConflictRaised), 0)
            else if ClosingOf(w.call, reply).None? then Driven(store, w.Finish(UncertainRaised(PartialSeen(reply))), 1)
            else
              var closed := CloseAttempt(store, reserved.ledger, w.OwnIntent(), ClosingOf(w.call, reply).value, reply, late.now);
              Driven(closed.store, w.Finish(closed.outcome), 1)
  {
    var reserved := TrackEnsure(ledger, w.OwnIntent(), early.now);
    DriveStep(store, w, early, late, 5);
    if reserved.refusal.Some? {
      RejectedRefines(store, w.(pc := StoreRejectedArtifact(reserved.refusal.value)), early, late, reserved.refusal.value);
    } else {
      DriveStep(store, w.(pc := Invoke), early, late, 4);
      if ClosingOf(w.call, reply).Some? {
        CloseRefines(store, w.(pc := StoreArtifact(reply)), early, late, reply, reserved.ledger);
      } else {
        DriveDone(store, w.Finish(UncertainRaised(PartialSeen(reply))), early, late, 3);
      }
    }
  }

  /** A first execution takes the protocol's steps from claim to settlement. */
  lemma FirstExecutionRefines(store: Store, w: Worker, early: Choice, late: Choice, ledger: Option<Ledger>,
                              reply: Reply, now: int, done: int)
    requires w.pc == CheckReceipt && w.AttemptId() !in store.intents && w.AttemptId() !in store.receipts
    requires early == EarlyChoice(store, ledger, w.call, w.attempt, reply, now, done)
    requires late == early.(now := done)
    ensures var big := ExecuteOnce(store, ledger, w.call, w.attempt, reply, now, done);
            Drive(store, w, early, late, ATTEMPT_STEPS)
            == Driven(big.store, w.(claimedAt := now, pc := Finished(big.outcome)), if big.ran then 1 else 0)
  {
    var claimed := w.(claimedAt := now, pc := ReserveBudget);
    assert claimed.OwnIntent() == IntentFor(w.call, w.attempt, now);
    ClaimRefines(store, w, early, late);
    ReservedRefines(store.(intents := store.intents[w.AttemptId() := claimed.OwnIntent()]), claimed, early, late, ledger, reply);
  }

  /** Executing an attempt in one go is running the protocol alone: same evidence, same outcome,
      and the provider invoked exactly when the big step says it ran. */
  lemma ExecuteOnceRefinesProtocol(store: Store, ledger: Option<Ledger>, call: Call, attempt: nat, maxAttempts: nat,
                                   reply: Reply, now: int, done: int)
    requires Intact(store)
    ensures var early := EarlyChoice(store, ledger, call, attempt, reply, now, done);
            var big := ExecuteOnce(store, ledger, call, attempt, reply, now, done);
            var driven := Drive(store, Worker(call, maxAttempts, attempt, now, CheckReceipt), early, early.(now := done),
                                ATTEMPT_STEPS);
            && driven.store == big.store
            && driven.worker == Worker(call, maxAttempts, attempt, now, Finished(big.outcome))
            && driven.invocations == (if big.ran then 1 else 0)
  {
    var w := Worker(call, maxAttempts, attempt, now, CheckReceipt);
    var early := EarlyChoice(store, ledger, call, attempt, reply, now, done);
    if w.AttemptId() in store.intents {
      KnownAttemptRefines(store, w, early, early.(now := done), ledger, reply, now, done);
    } else {
      FirstExecutionRefines(store, w, early, early.(now := done), ledger, reply, now, done);
    }
  }
}
