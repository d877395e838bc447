/** Sessions: a process executing attempts one after the other with one live tracker.
    The evidence it leaves behind always rebuilds the totals the tracker shows. */
module CallSessions {
  import opened Common
  import opened TokenUsage
  import opened AttemptIds
  import opened ModelCalls
  import opened RunBudget
  import opened RunBudgetProofs
  import opened CallProtocol
  import opened CallRuntime
  import opened Hydration

  datatype Execution = Execution(call: Call, attempt: nat, reply: Reply, now: int, done: int)

  /** How far a new execution got before the process died. */
  datatype Reach = IntentOnly | ArtifactToo | Complete

  datatype SessionEvent =
    | Execute(execution: Execution)
    | Permit(key: string, reason: string, evidence: string, stages: seq<string>)
    | Crash(execution: Execution, reach: Reach)
    | Restart(listing: set<string> -> seq<string>, startedAt: int, now: int)

  /** A process with its live tracker, or the evidence a dead one left behind. */
  datatype Process = Running(store: Store, ledger: Ledger) | Down(store: Store)

  /** The evidence on disk when an execution is cut off. */
  function CutStore(store: Store, ledger: Ledger, e: Execution, reach: Reach): Store {
    var intent := IntentFor(e.call, e.attempt, e.now);
    var claimed := Claimed(store, intent);
    if intent.attemptId in store.intents then store
    else
      match reach
      case IntentOnly => claimed
      case ArtifactToo =>
        if Ensure(ledger, RequestOf(intent), e.now).outcome.Refused? then WithArtifact(claimed, intent, RejectedResponse(e.call))
        else if ClosingOf(e.call, e.reply).None? then claimed
        else WithArtifact(claimed, intent, ClosingOf(e.call, e.reply).value.response)
      case Complete => ExecuteOnce(store, Some(ledger), e.call, e.attempt, e.reply, e.now, e.done).store
  }

  /** A restarted process hydrates a fresh tracker from everything on disk, and stays down if that fails. */
  function Step(limits: Limits, p: Process, event: SessionEvent): Process {
    match event
    case Execute(e) =>
      if p.Down? then p
      else
        var after := ExecuteOnce(p.store, Some(p.ledger), e.call, e.attempt, e.reply, e.now, e.done);
        Running(after.store, after.ledger.GetOr(p.ledger))
    case Permit(key, reason, evidence, stages) =>
      if p.Down? then p else Running(p.store, Authorize(p.ledger, key, reason, evidence, stages).ledger)
    case Crash(e, reach) => if p.Down? then p else Down(CutStore(p.store, p.ledger, e, reach))
    case Restart(listing, startedAt, now) =>
      var hydrated := Hydrate(p.store, Fresh(limits, startedAt), listing(p.store.intents.Keys), now);
      if hydrated.failure.None? then Running(p.store, hydrated.ledger) else Down(p.store)
  }

  function RunSession(limits: Limits, p: Process, events: seq<SessionEvent>): Process
    decreases |events|
  {
    if events == [] then p else RunSession(limits, Step(limits, p, events[0]), events[1..])
  }

  /** No elapsed limit fires while an execution is settled. */
  predicate OnTime(limits: Limits, p: Process, events: seq<SessionEvent>)
    decreases |events|
  {
    events == [] ||
    ((events[0].Execute? && p.Running? ==> !Expired(p.ledger, events[0].execution.done))
     && OnTime(limits, Step(limits, p, events[0]), events[1..]))
  }

  /** A directory listing names every file, in whatever order. */
  ghost predicate ListsAll(events: seq<SessionEvent>) {
    forall event, files: set<string>, a | event in events && event.Restart? && a in files :: a in event.listing(files)
  }

  /** The tracker's own books are in order and nothing was charged in money. */
  ghost predicate Books(ledger: Ledger) {
    Accounting(ledger) && GrantsAddUp(ledger) && Bounded(ledger) && ledger.cost == 0.0
  }

  /** Evidence and live tracker tell the same story. */
  ghost predicate InStep(store: Store, ledger: Ledger) {
    Intact(store) && Mirrors(store, ledger, store.intents.Keys) && Books(ledger)
  }

  // ---------- Attempts already on record ----------

  lemma RestoreKnown(ledger: Ledger, intent: Intent, now: int)
    requires intent.attemptId in ledger.reservations && intent.attemptId != ""
    requires var r := ledger.reservations[intent.attemptId];
             r.callId != "" && r.callId == intent.callId && r.input == intent.reservedInput && r.output == intent.reservedOutput
    ensures TrackRestore(Some(ledger), intent, now) == Tracked(Some(ledger), None)
  {
  }

  /** Replaying or reporting an attempt on record leaves evidence and tracker untouched. */
  lemma KnownAttemptChangesNothing(store: Store, ledger: Ledger, e: Execution)
    requires InStep(store, ledger) && AttemptName(e.call.callId, e.attempt) in store.intents
    ensures var after := ExecuteOnce(store, Some(ledger), e.call, e.attempt, e.reply, e.now, e.done);
            after.store == store && after.ledger == Some(ledger) && !after.ran
  {
    var a := AttemptName(e.call.callId, e.attempt);
    if a in ledger.reservations {
      assert EntryMirrors(store, a, ledger.reservations[a]);
      RestoreKnown(ledger, store.intents[a], e.now);
    }
  }

  // ---------- New attempts ----------

  function Claimed(store: Store, intent: Intent): Store {
    store.(intents := store.intents[intent.attemptId := intent])
  }

  function WithArtifact(store: Store, intent: Intent, response: Response): Store {
    store.(artifacts := store.artifacts[intent.attemptId := response.text])
  }

  /** The evidence of a closed attempt. */
  function Closed(store: Store, intent: Intent, response: Response, status: Status, now: int): Store {
    var a := intent.attemptId;
    Store(store.intents[a := intent], store.artifacts[a := response.text],
          store.receipts[a := ReceiptFor(intent, response, status, now)])
  }

  /** Publishing for a freshly claimed attempt always succeeds and reads back as the response published. */
  lemma PublishFresh(store: Store, intent: Intent, response: Response, status: Status, now: int)
    requires Intact(store) && intent.attemptId !in store.intents
    ensures Publish(Claimed(store, intent), intent, response, status, now) == (Closed(store, intent, response, status, now), true)
    ensures LoadResponse(Closed(store, intent, response, status, now), intent.attemptId) == Some(response)
  {
  }

  /** The stores agree at every attempt but `a`. */
  ghost predicate SameElsewhere(store: Store, next: Store, a: string) {
    && next.intents - {a} == store.intents - {a}
    && next.artifacts - {a} == store.artifacts - {a}
    && next.receipts - {a} == store.receipts - {a}
  }

  lemma ClosedElsewhere(store: Store, intent: Intent, response: Response, status: Status, now: int)
    ensures SameElsewhere(store, Closed(store, intent, response, status, now), intent.attemptId)
  {
  }

  lemma ElsewhereUnchanged(store: Store, next: Store, a: string, b: string)
    requires SameElsewhere(store, next, a) && b != a
    ensures b in next.intents <==> b in store.intents
    ensures b in next.artifacts <==> b in store.artifacts
    ensures b in next.receipts <==> b in store.receipts
    ensures b in store.intents ==> next.intents[b] == store.intents[b]
    ensures b in store.artifacts ==> next.artifacts[b] == store.artifacts[b]
    ensures b in store.receipts ==> next.receipts[b] == store.receipts[b]
    ensures LoadResponse(next, b) == LoadResponse(store, b)
  {
    assert b in next.intents <==> b in next.intents - {a};
    assert b in next.artifacts <==> b in next.artifacts - {a};
    assert b in next.receipts <==> b in next.receipts - {a};
    assert b in store.intents <==> b in store.intents - {a};
    assert b in store.artifacts <==> b in store.artifacts - {a};
    assert b in store.receipts <==> b in store.receipts - {a};
    if b in store.intents { assert (next.intents - {a})[b] == (store.intents - {a})[b]; }
    if b in store.artifacts { assert (next.artifacts - {a})[b] == (store.artifacts - {a})[b]; }
    if b in store.receipts { assert (next.receipts - {a})[b] == (store.receipts - {a})[b]; }
  }

  /** It suffices to look at the attempt that was executed. */
  lemma MirrorsAfter(store: Store, ledger: Ledger, next: Store, after: Ledger, a: string)
    requires Mirrors(store, ledger, store.intents.Keys) && Intact(store)
    requires SameElsewhere(store, next, a) && a in next.intents && next.intents[a].attemptId == a
    requires a in next.receipts ==> LoadResponse(next, a).Some?
    requires a !in store.intents
    requires after.reservations - {a} == ledger.reservations - {a}
    requires a in after.reservations ==> EntryMirrors(next, a, after.reservations[a])
    requires !Uncharged(next, a) ==> a in after.reservations
    ensures Intact(next) && Mirrors(next, after, next.intents.Keys)
  {
    forall b | b in next.intents || b in next.receipts || b in next.artifacts
      ensures b in next.intents && next.intents[b].attemptId == b
      ensures b in next.receipts ==> LoadResponse(next, b).Some?
    {
      if b != a { ElsewhereUnchanged(store, next, a, b); }
    }
    forall b | b in after.reservations
      ensures EntryMirrors(next, b, after.reservations[b])
    {
      if b != a {
        ElsewhereUnchanged(store, next, a, b);
        assert b in after.reservations - {a};
        assert (after.reservations - {a})[b] == (ledger.reservations - {a})[b];
        assert EntryMirrors(store, b, ledger.reservations[b]);
      }
    }
    forall b | b in next.intents && !Uncharged(next, b)
      ensures b in after.reservations
    {
      if b != a {
        ElsewhereUnchanged(store, next, a, b);
        assert b in ledger.reservations - {a};
      }
    }
  }

  /** What a reservation for a new intent does to the tracker. */
  lemma EnsureKeepsBooks(ledger: Ledger, r: Request, now: int)
    requires Books(ledger) && r.cost == 0.0
    ensures var t := Ensure(ledger, r, now).ledger;
            Books(t) && t.startedAt == ledger.startedAt && t.limits == ledger.limits
  {
    assert Ensure(ledger, r, now).ledger == ledger || Ensure(ledger, r, now) == Reserve(ledger, r, now);
    ReserveFrame(ledger, r, now);
    ReserveAccounts(ledger, r, now);
    ReserveBounded(ledger, r, now);
  }

  lemma ReserveFrame(ledger: Ledger, r: Request, now: int)
    requires r.cost == 0.0
    ensures var t := Reserve(ledger, r, now).ledger;
            t.cost == ledger.cost && t.startedAt == ledger.startedAt && t.limits == ledger.limits
  {
    ConsumeWidens(ledger, r.stage, r.attemptId, InputDeficit(ledger, r.input), OutputDeficit(ledger, r.output));
  }

  /** The entry of a fresh, unsettled reservation. */
  predicate FreshEntry(intent: Intent, r: Reservation) {
    && intent.attemptId != "" && r.callId != "" && r.callId == intent.callId
    && r.input == intent.reservedInput && r.output == intent.reservedOutput && r.settlement.None?
  }

  lemma EnsureEnters(ledger: Ledger, intent: Intent, now: int)
    requires intent.attemptId !in ledger.reservations
    ensures var step := Ensure(ledger, RequestOf(intent), now); var t := step.ledger; var a := intent.attemptId;
            && (step.outcome.Refused? ==> t.reservations == ledger.reservations)
            && (step.outcome.Done? ==>
                  a in t.reservations && FreshEntry(intent, t.reservations[a])
                  && t.reservations == ledger.reservations[a := t.reservations[a]])
  {
    ConsumeWidens(ledger, intent.stage, intent.attemptId, InputDeficit(ledger, intent.reservedInput),
                  OutputDeficit(ledger, intent.reservedOutput));
  }

  /** What settling a fresh reservation in time does to the tracker. */
  lemma RecordKeepsBooks(ledger: Ledger, a: string, callId: string, text: string, usage: RawUsage, now: int)
    requires Books(ledger)
    ensures var t := Record(ledger, a, callId, text, usage, now).ledger;
            Books(t) && t.startedAt == ledger.startedAt && t.limits == ledger.limits
  {
    RecordAccounts(ledger, a, callId, text, usage, now);
    RecordBounded(ledger, a, callId, text, usage, now);
  }

  lemma RecordSettles(ledger: Ledger, a: string, callId: string, text: string, usage: RawUsage, now: int)
    requires a in ledger.reservations && ledger.reservations[a].callId == callId
    requires ledger.reservations[a].settlement.None? && !Expired(ledger, now)
    ensures var r := ledger.reservations[a];
            var t := Record(ledger, a, callId, text, usage, now).ledger;
            var c := ChargeFor(r, text, usage);
            && a in t.reservations && t.reservations == ledger.reservations[a := t.reservations[a]]
            && t.reservations[a].settlement.Some?
            && t.reservations[a] == r.(settlement := t.reservations[a].settlement)
            && t.reservations[a].settlement.value.input == c.input
            && t.reservations[a].settlement.value.output == c.output
  {
  }

  /** The tracker's refusal, published. */
  lemma RejectedInStep(store: Store, ledger: Ledger, after: Ledger, intent: Intent, response: Response, done: int)
    requires InStep(store, ledger) && Books(after) && after.reservations == ledger.reservations
    requires intent.attemptId !in store.intents
    ensures InStep(Closed(store, intent, response, BudgetRejected, done), after)
  {
    PublishFresh(store, intent, response, BudgetRejected, done);
    ClosedElsewhere(store, intent, response, BudgetRejected, done);
    assert intent.attemptId in ledger.reservations ==> EntryMirrors(store, intent.attemptId, ledger.reservations[intent.attemptId]);
    MirrorsAfter(store, ledger, Closed(store, intent, response, BudgetRejected, done), after, intent.attemptId);
  }

  /** An intent left without a receipt stays charged in full. */
  lemma UncertainInStep(store: Store, ledger: Ledger, after: Ledger, intent: Intent)
    requires InStep(store, ledger) && Books(after) && intent.attemptId !in store.intents
    requires intent.attemptId in after.reservations && FreshEntry(intent, after.reservations[intent.attemptId])
    requires after.reservations == ledger.reservations[intent.attemptId := after.reservations[intent.attemptId]]
    ensures InStep(Claimed(store, intent), after)
  {
    var a := intent.attemptId;
    ClaimedElsewhere(store, intent);
    assert after.reservations - {a} == ledger.reservations - {a};
    ClaimedEntryMirrors(store, intent, after.reservations[a]);
    MirrorsAfter(store, ledger, Claimed(store, intent), after, a);
  }

  /** So does one whose artifact was written as well. */
  lemma StoredInStep(store: Store, ledger: Ledger, after: Ledger, intent: Intent, response: Response)
    requires InStep(store, ledger) && Books(after) && intent.attemptId !in store.intents
    requires intent.attemptId in after.reservations && FreshEntry(intent, after.reservations[intent.attemptId])
    requires after.reservations == ledger.reservations[intent.attemptId := after.reservations[intent.attemptId]]
    ensures InStep(WithArtifact(Claimed(store, intent), intent, response), after)
  {
    var a := intent.attemptId;
    var next := WithArtifact(Claimed(store, intent), intent, response);
    StoredElsewhere(store, intent, response);
    assert after.reservations - {a} == ledger.reservations - {a};
    ClaimedEntryMirrors(store, intent, after.reservations[a]);
    assert EntryMirrors(next, a, after.reservations[a]);
    MirrorsAfter(store, ledger, next, after, a);
  }

  lemma StoredElsewhere(store: Store, intent: Intent, response: Response)
    ensures SameElsewhere(store, WithArtifact(Claimed(store, intent), intent, response), intent.attemptId)
  {
  }

  lemma ClaimedElsewhere(store: Store, intent: Intent)
    ensures SameElsewhere(store, Claimed(store, intent), intent.attemptId)
  {
  }

  lemma ClaimedEntryMirrors(store: Store, intent: Intent, r: Reservation)
    requires Intact(store) && intent.attemptId !in store.intents && FreshEntry(intent, r)
    ensures EntryMirrors(Claimed(store, intent), intent.attemptId, r)
    ensures intent.attemptId !in Claimed(store, intent).receipts
  {
  }

  /** The settlement the closing demands. */
  ghost predicate SettledFor(intent: Intent, closing: Closing, r: Reservation) {
    && FreshEntry(intent, r.(settlement := None))
    && match closing.status
       case Succeeded =>
         r.settlement.Some?
         && Charge(r.settlement.value.input, r.settlement.value.output)
            == ChargeFor(r, closing.response.text, closing.response.usage)
       case NotSent => r.settlement.Some? && r.settlement.value.input == 0 && r.settlement.value.output == 0
       case BudgetRejected => false
       case _ => r.settlement.None?
  }

  lemma ClosedEntryMirrors(store: Store, intent: Intent, closing: Closing, done: int, r: Reservation)
    requires Intact(store) && intent.attemptId !in store.intents && SettledFor(intent, closing, r)
    ensures EntryMirrors(Closed(store, intent, closing.response, closing.status, done), intent.attemptId, r)
  {
    PublishFresh(store, intent, closing.response, closing.status, done);
  }

  /** A closed attempt, settled when the protocol settles it. */
  lemma ClosedInStep(store: Store, ledger: Ledger, after: Ledger, intent: Intent, closing: Closing, done: int)
    requires InStep(store, ledger) && Books(after) && intent.attemptId !in store.intents
    requires intent.attemptId in after.reservations && SettledFor(intent, closing, after.reservations[intent.attemptId])
    requires after.reservations == ledger.reservations[intent.attemptId := after.reservations[intent.attemptId]]
    ensures InStep(Closed(store, intent, closing.response, closing.status, done), after)
  {
    PublishFresh(store, intent, closing.response, closing.status, done);
    ClosedElsewhere(store, intent, closing.response, closing.status, done);
    ClosedEntryMirrors(store, intent, closing, done, after.reservations[intent.attemptId]);
    MirrorsAfter(store, ledger, Closed(store, intent, closing.response, closing.status, done), after, intent.attemptId);
  }

  lemma NotSentCostsNothing(call: Call, reply: Reply, r: Reservation)
    requires ClosingOf(call, reply).Some? && ClosingOf(call, reply).value.status.NotSent?
    ensures var response := ClosingOf(call, reply).value.response;
            ChargeFor(r, response.text, response.usage) == Charge(0, 0)
  {
  }

  lemma SettlesAsDemanded(reserved: Ledger, intent: Intent, call: Call, reply: Reply, done: int)
    requires Books(reserved) && !Expired(reserved, done) && ClosingOf(call, reply).Some?
    requires intent.attemptId in reserved.reservations && FreshEntry(intent, reserved.reservations[intent.attemptId])
    requires var status := ClosingOf(call, reply).value.status; status.Succeeded? || status.NotSent?
    ensures var closing := ClosingOf(call, reply).value; var a := intent.attemptId;
            var after := Record(reserved, a, intent.callId, closing.response.text, closing.response.usage, done).ledger;
            && Books(after) && after.startedAt == reserved.startedAt && after.limits == reserved.limits
            && a in after.reservations && SettledFor(intent, closing, after.reservations[a])
            && after.reservations == reserved.reservations[a := after.reservations[a]]
  {
    var closing := ClosingOf(call, reply).value;
    var a := intent.attemptId;
    RecordKeepsBooks(reserved, a, intent.callId, closing.response.text, closing.response.usage, done);
    RecordSettles(reserved, a, intent.callId, closing.response.text, closing.response.usage, done);
    if closing.status.NotSent? {
      NotSentCostsNothing(call, reply, reserved.reservations[a]);
    }
    var after := Record(reserved, a, intent.callId, closing.response.text, closing.response.usage, done).ledger;
    ChargeDependsOnReservedAmounts(reserved.reservations[a], after.reservations[a], closing.response.text, closing.response.usage);
  }

  /** Only successes and attempts never sent are settled. */
  function AfterClosing(ledger: Ledger, intent: Intent, closing: Closing, done: int): Ledger {
    if closing.status.Succeeded? || closing.status.NotSent?
    then Record(ledger, intent.attemptId, intent.callId, closing.response.text, closing.response.usage, done).ledger
    else ledger
  }

  lemma ClosingPublishesAndSettles(store: Store, reserved: Ledger, intent: Intent, closing: Closing, reply: Reply, done: int)
    requires Intact(store) && intent.attemptId !in store.intents
    ensures var after := CloseAttempt(Claimed(store, intent), Some(reserved), intent, closing, reply, done);
            && after.store == Closed(store, intent, closing.response, closing.status, done)
            && after.ledger == Some(AfterClosing(reserved, intent, closing, done))
  {
    PublishFresh(store, intent, closing.response, closing.status, done);
  }

  lemma AfterClosingSettles(reserved: Ledger, intent: Intent, call: Call, reply: Reply, done: int)
    requires Books(reserved) && !Expired(reserved, done) && ClosingOf(call, reply).Some?
    requires intent.attemptId in reserved.reservations && FreshEntry(intent, reserved.reservations[intent.attemptId])
    ensures var closing := ClosingOf(call, reply).value; var a := intent.attemptId;
            var after := AfterClosing(reserved, intent, closing, done);
            && Books(after) && after.startedAt == reserved.startedAt && after.limits == reserved.limits
            && a in after.reservations && SettledFor(intent, closing, after.reservations[a])
            && after.reservations == reserved.reservations[a := after.reservations[a]]
  {
    var status := ClosingOf(call, reply).value.status;
    if status.Succeeded? || status.NotSent? {
      SettlesAsDemanded(reserved, intent, call, reply, done);
    }
  }

  lemma UpdatedTwice<V>(m: map<string, V>, m1: map<string, V>, m2: map<string, V>, k: string)
    requires k in m1 && k in m2 && m1 == m[k := m1[k]] && m2 == m1[k := m2[k]]
    ensures m2 == m[k := m2[k]]
  {
  }

  lemma FirstExecutionInStep(store: Store, ledger: Ledger, e: Execution)
    requires InStep(store, ledger) && !Expired(ledger, e.done)
    requires AttemptName(e.call.callId, e.attempt) !in store.intents
    ensures var after := FirstExecution(store, Some(ledger), e.call, e.attempt, e.reply, e.now, e.done);
            && after.ledger.Some? && InStep(after.store, after.ledger.value)
            && after.ledger.value.startedAt == ledger.startedAt && after.ledger.value.limits == ledger.limits
  {
    var intent := IntentFor(e.call, e.attempt, e.now);
    var a := intent.attemptId;
    assert a in ledger.reservations ==> EntryMirrors(store, a, ledger.reservations[a]);
    EnsureKeepsBooks(ledger, RequestOf(intent), e.now);
    EnsureEnters(ledger, intent, e.now);
    var step := Ensure(ledger, RequestOf(intent), e.now);
    if step.outcome.Refused? {
      PublishFresh(store, intent, RejectedResponse(e.call), BudgetRejected, e.done);
      RejectedInStep(store, ledger, step.ledger, intent, RejectedResponse(e.call), e.done);
    } else if ClosingOf(e.call, e.reply).None? {
      UncertainInStep(store, ledger, step.ledger, intent);
    } else {
      ClosingPublishesAndSettles(store, step.ledger, intent, ClosingOf(e.call, e.reply).value, e.reply, e.done);
      AfterClosingSettles(step.ledger, intent, e.call, e.reply, e.done);
      var closing := ClosingOf(e.call, e.reply).value;
      var after := AfterClosing(step.ledger, intent, closing, e.done);
      UpdatedTwice(ledger.reservations, step.ledger.reservations, after.reservations, a);
      ClosedInStep(store, ledger, after, intent, closing, e.done);
    }
  }

  lemma ExecutionInStep(store: Store, ledger: Ledger, e: Execution)
    requires InStep(store, ledger) && !Expired(ledger, e.done)
    ensures var after := ExecuteOnce(store, Some(ledger), e.call, e.attempt, e.reply, e.now, e.done);
            && after.ledger.Some? && InStep(after.store, after.ledger.value)
            && after.ledger.value.startedAt == ledger.startedAt && after.ledger.value.limits == ledger.limits
  {
    if AttemptName(e.call.callId, e.attempt) in store.intents {
      KnownAttemptChangesNothing(store, ledger, e);
    } else {
      FirstExecutionInStep(store, ledger, e);
    }
  }

  // ---------- Other events ----------

  lemma PermitInStep(store: Store, ledger: Ledger, key: string, reason: string, evidence: string, stages: seq<string>)
    requires InStep(store, ledger)
    ensures var after := Authorize(ledger, key, reason, evidence, stages).ledger;
            InStep(store, after) && after.startedAt == ledger.startedAt && after.limits == ledger.limits
  {
    StepAccounts(ledger, DoAuthorize(key, reason, evidence, stages));
    StepBounded(ledger, DoAuthorize(key, reason, evidence, stages));
  }

  /** A tracker hydrated from all the evidence is in step with it. */
  lemma RestartInStep(store: Store, limits: Limits, order: seq<string>, startedAt: int, now: int)
    requires Intact(store) && forall a | a in store.intents :: a in order
    requires Hydrate(store, Fresh(limits, startedAt), order, now).failure.None?
    ensures InStep(store, Hydrate(store, Fresh(limits, startedAt), order, now).ledger)
    ensures NotSentEntries(store, Hydrate(store, Fresh(limits, startedAt), order, now).ledger) == {}
    ensures Hydrate(store, Fresh(limits, startedAt), order, now).ledger.limits == limits
  {
    HydrateRebuilds(store, Fresh(limits, startedAt), {}, order, now);
  }

  /** A cut-off execution leaves evidence that holds together. */
  lemma CutIntact(store: Store, ledger: Ledger, e: Execution, reach: Reach)
    requires InStep(store, ledger)
    ensures Intact(CutStore(store, ledger, e, reach))
  {
    var intent := IntentFor(e.call, e.attempt, e.now);
    if intent.attemptId !in store.intents && reach.Complete? {
      var step := Ensure(ledger, RequestOf(intent), e.now);
      if step.outcome.Refused? {
        PublishFresh(store, intent, RejectedResponse(e.call), BudgetRejected, e.done);
        ClosedIntact(store, intent, RejectedResponse(e.call), BudgetRejected, e.done);
      } else if ClosingOf(e.call, e.reply).Some? {
        var closing := ClosingOf(e.call, e.reply).value;
        ClosingPublishesAndSettles(store, step.ledger, intent, closing, e.reply, e.done);
        ClosedIntact(store, intent, closing.response, closing.status, e.done);
      } else {
        ClaimedIntact(store, intent);
      }
    } else if intent.attemptId !in store.intents {
      ClaimedIntact(store, intent);
      StoredIntact(store, intent, RejectedResponse(e.call));
      if ClosingOf(e.call, e.reply).Some? {
        StoredIntact(store, intent, ClosingOf(e.call, e.reply).value.response);
      }
    }
  }

  lemma ClaimedIntact(store: Store, intent: Intent)
    requires Intact(store) && intent.attemptId !in store.intents
    ensures Intact(Claimed(store, intent))
  {
    forall b | b in store.receipts ensures LoadResponse(Claimed(store, intent), b).Some? {
      assert LoadResponse(store, b).Some?;
    }
  }

  lemma StoredIntact(store: Store, intent: Intent, response: Response)
    requires Intact(store) && intent.attemptId !in store.intents
    ensures Intact(WithArtifact(Claimed(store, intent), intent, response))
  {
    forall b | b in store.receipts ensures LoadResponse(WithArtifact(Claimed(store, intent), intent, response), b).Some? {
      assert LoadResponse(store, b).Some?;
    }
  }

  lemma ClosedIntact(store: Store, intent: Intent, response: Response, status: Status, now: int)
    requires Intact(store) && intent.attemptId !in store.intents
    ensures Intact(Closed(store, intent, response, status, now))
  {
    PublishFresh(store, intent, response, status, now);
    forall b | b in Closed(store, intent, response, status, now).receipts
      ensures LoadResponse(Closed(store, intent, response, status, now), b).Some?
    {
      if b != intent.attemptId {
        assert LoadResponse(store, b).Some?;
      }
    }
  }

  // ---------- Whole sessions ----------

  /** A live tracker is in step with the evidence; evidence alone holds together. */
  ghost predicate ProcessOk(limits: Limits, p: Process) {
    if p.Running? then InStep(p.store, p.ledger) && p.ledger.limits == limits else Intact(p.store)
  }

  lemma StepInStep(limits: Limits, p: Process, event: SessionEvent)
    requires ProcessOk(limits, p)
    requires event.Execute? && p.Running? ==> !Expired(p.ledger, event.execution.done)
    requires event.Restart? ==> forall files: set<string>, a | a in files :: a in event.listing(files)
    ensures ProcessOk(limits, Step(limits, p, event))
  {
    match event
    case Execute(e) => if p.Running? { ExecutionInStep(p.store, p.ledger, e); }
    case Permit(key, reason, evidence, stages) =>
      if p.Running? { PermitInStep(p.store, p.ledger, key, reason, evidence, stages); }
    case Crash(e, reach) => if p.Running? { CutIntact(p.store, p.ledger, e, reach); }
    case Restart(listing, startedAt, now) =>
      if Step(limits, p, event).Running? {
        RestartInStep(p.store, limits, listing(p.store.intents.Keys), startedAt, now);
      }
  }

  lemma {:induction false} SessionInStep(limits: Limits, p: Process, events: seq<SessionEvent>)
    requires ProcessOk(limits, p) && OnTime(limits, p, events) && ListsAll(events)
    ensures ProcessOk(limits, RunSession(limits, p, events))
    decreases |events|
  {
    if events == [] {
    } else {
      assert events[0] in events;
      StepInStep(limits, p, events[0]);
      assert forall event | event in events[1..] :: event in events;
      SessionInStep(limits, Step(limits, p, events[0]), events[1..]);
    }
  }

  /** `rebuilt` shows what `live` shows; the calls differ by the attempts of `live` that were never sent. */
  predicate SameTotals(store: Store, live: Ledger, rebuilt: Ledger) {
    && rebuilt.totalInput == live.totalInput
    && rebuilt.totalOutput == live.totalOutput
    && rebuilt.reservedOutput == live.reservedOutput
    && live.calls == rebuilt.calls + |NotSentEntries(store, live)|
  }

  /** Evidence in step with a tracker hydrates, in any order, into one with the same totals. */
  lemma FreshHydration(store: Store, live: Ledger, restartedAt: int, order: seq<string>, now: int)
    requires InStep(store, live) && UsagesValid(store) && forall a | a in store.intents :: a in order
    requires now - restartedAt <= live.limits.maxElapsed
    ensures var hydrated := Hydrate(store, Fresh(live.limits, restartedAt), order, now);
            hydrated.failure.None? && InStep(store, hydrated.ledger) && SameTotals(store, live, hydrated.ledger)
  {
    HydrationRunsThrough(store, live, Fresh(live.limits, restartedAt), {}, order, now);
    RestartInStep(store, live.limits, order, restartedAt, now);
    MirrorsDetermineTotals(store, live, Hydrate(store, Fresh(live.limits, restartedAt), order, now).ledger);
  }

  /** Hydrating a fresh tracker after any session, with executions, elastic authorizations, crashes at any point and
      earlier restarts, visiting the intents in any order, succeeds and shows the live tracker's totals; provider
      calls differ by exactly the attempts that were never sent. No elapsed limit fired and the usages are valid. */
  lemma {:induction false} HydrationRebuildsTotals(limits: Limits, startedAt: int, events: seq<SessionEvent>,
                                                   restartedAt: int, order: seq<string>, now: int)
    requires OnTime(limits, Running(EMPTY_STORE, Fresh(limits, startedAt)), events) && ListsAll(events)
    requires now - restartedAt <= limits.maxElapsed
    requires var p := RunSession(limits, Running(EMPTY_STORE, Fresh(limits, startedAt)), events);
             p.Running? && UsagesValid(p.store) && forall a | a in p.store.intents :: a in order
    ensures var p := RunSession(limits, Running(EMPTY_STORE, Fresh(limits, startedAt)), events);
            var hydrated := Hydrate(p.store, Fresh(limits, restartedAt), order, now);
            hydrated.failure.None? && SameTotals(p.store, p.ledger, hydrated.ledger)
  {
    SessionInStep(limits, Running(EMPTY_STORE, Fresh(limits, startedAt)), events);
    var p := RunSession(limits, Running(EMPTY_STORE, Fresh(limits, startedAt)), events);
    FreshHydration(p.store, p.ledger, restartedAt, order, now);
  }

  /** The tracker as it stood, or would have stood, when the execution was cut off. */
  function CutLedger(store: Store, ledger: Ledger, e: Execution, reach: Reach): Ledger {
    var intent := IntentFor(e.call, e.attempt, e.now);
    if intent.attemptId in store.intents then ledger
    else if reach.Complete? then
      ExecuteOnce(store, Some(ledger), e.call, e.attempt, e.reply, e.now, e.done).ledger.GetOr(ledger)
    else Ensure(ledger, RequestOf(intent), e.now).ledger
  }

  lemma CutInStep(store: Store, ledger: Ledger, e: Execution, reach: Reach)
    requires InStep(store, ledger) && !Expired(ledger, e.done)
    requires var intent := IntentFor(e.call, e.attempt, e.now);
             reach.Complete? || intent.attemptId in store.intents || Ensure(ledger, RequestOf(intent), e.now).outcome.Done?
    ensures InStep(CutStore(store, ledger, e, reach), CutLedger(store, ledger, e, reach))
    ensures CutLedger(store, ledger, e, reach).limits == ledger.limits
  {
    var intent := IntentFor(e.call, e.attempt, e.now);
    if intent.attemptId !in store.intents {
      if reach.Complete? {
        ExecutionInStep(store, ledger, e);
      } else {
        var a := intent.attemptId;
        assert a in ledger.reservations ==> EntryMirrors(store, a, ledger.reservations[a]);
        EnsureKeepsBooks(ledger, RequestOf(intent), e.now);
        EnsureEnters(ledger, intent, e.now);
        var reserved := Ensure(ledger, RequestOf(intent), e.now).ledger;
        UncertainInStep(store, ledger, reserved, intent);
        if ClosingOf(e.call, e.reply).Some? {
          StoredInStep(store, ledger, reserved, intent, ClosingOf(e.call, e.reply).value.response);
        }
      }
    }
  }

  /** A process that dies anywhere between reserving an attempt and settling it can always be restarted, and its
      fresh tracker charges the attempt: by its settlement once the receipt is written, and in full before. */
  lemma CrashIsRecovered(store: Store, ledger: Ledger, e: Execution, reach: Reach, restartedAt: int, order: seq<string>,
                         now: int)
    requires InStep(store, ledger) && !Expired(ledger, e.done)
    requires var intent := IntentFor(e.call, e.attempt, e.now);
             reach.Complete? || intent.attemptId in store.intents || Ensure(ledger, RequestOf(intent), e.now).outcome.Done?
    requires var cut := CutStore(store, ledger, e, reach);
             UsagesValid(cut) && forall a | a in cut.intents :: a in order
    requires now - restartedAt <= ledger.limits.maxElapsed
    ensures var cut := CutStore(store, ledger, e, reach);
            var hydrated := Hydrate(cut, Fresh(ledger.limits, restartedAt), order, now);
            hydrated.failure.None? && SameTotals(cut, CutLedger(store, ledger, e, reach), hydrated.ledger)
  {
    CutInStep(store, ledger, e, reach);
    FreshHydration(CutStore(store, ledger, e, reach), CutLedger(store, ledger, e, reach), restartedAt, order, now);
  }
}
