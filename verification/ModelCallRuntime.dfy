/** The mutable runtime: evidence files created once, one optional tracker, one optional operation scope,
    attempts executed in place. */
module ModelCallRuntime {
  import opened Common
  import opened AttemptIds
  import opened ModelCalls
  import opened RunBudget
  import opened RunBudgetTracking
  import opened CallProtocol
  import opened CallRuntime
  import opened Hydration
  import opened OperationScope

  // ---------- The receipts an operation scope remembers ----------

  /** A replay remembers a success as soon as its response is loaded, even when settling it is then refused. */
  predicate ReplayNotes(store: Store, ledger: Option<Ledger>, call: Call, attempt: nat, now: int) {
    var a := AttemptName(call.callId, attempt);
    && LoadResponse(store, a).Some? && store.receipts[a].status.Succeeded? && Expected(store.intents[a], call, attempt)
    && TrackRestore(ledger, store.intents[a], now).refusal.None?
  }

  function ScopeAfterReplay(scope: Option<Scope>, store: Store, ledger: Option<Ledger>, call: Call, attempt: nat, now: int)
    : Option<Scope>
  {
    if ReplayNotes(store, ledger, call, attempt, now) then Noted(scope, store.receipts[AttemptName(call.callId, attempt)])
    else scope
  }

  /** A first execution remembers its receipt once its response is settled. */
  function ScopeAfterExecution(scope: Option<Scope>, store: Store, ledger: Option<Ledger>, call: Call, attempt: nat,
                               reply: Reply, now: int, done: int): Option<Scope>
  {
    var a := AttemptName(call.callId, attempt);
    if a in store.receipts then ScopeAfterReplay(scope, store, ledger, call, attempt, now)
    else
      var after := ExecuteOnce(store, ledger, call, attempt, reply, now, done);
      if after.outcome.Returned? && a in after.store.receipts then Noted(scope, after.store.receipts[a]) else scope
  }

  /** Hydration remembers every success it settles. */
  function ScopeAfterIntent(scope: Option<Scope>, store: Store, ledger: Ledger, a: string, now: int): Option<Scope> {
    if LoadResponse(store, a).Some? && store.receipts[a].status.Succeeded?
       && Restore(ledger, RequestOf(store.intents[a]), now).outcome.Done?
    then Noted(scope, store.receipts[a])
    else scope
  }

  function ScopeAfterEach(scope: Option<Scope>, store: Store, ledger: Ledger, order: seq<string>, now: int): Option<Scope>
    decreases |order|
  {
    if order == [] then scope
    else
      var first, scope' := HydrateOne(store, ledger, order[0], now), ScopeAfterIntent(scope, store, ledger, order[0], now);
      if first.failure.Some? then scope' else ScopeAfterEach(scope', store, first.ledger, order[1..], now)
  }

  class ModelCallRuntimeContext {
    var intents: map<string, Intent>
    var artifacts: map<string, string>
    var receipts: map<string, Receipt>
    var scope: Option<Scope>
    const tracker: RunBudgetTracker?
    const digest: (string, nat, string, string) -> string

    function Evidence(): Store
      reads this
    {
      Store(intents, artifacts, receipts)
    }

    function Budget(): Option<Ledger>
      reads this, tracker
    {
      if tracker == null then None else Some(tracker.View())
    }

    constructor (tracker: RunBudgetTracker?, digest: (string, nat, string, string) -> string)
      ensures Evidence() == EMPTY_STORE && scope == None && this.tracker == tracker && this.digest == digest
    {
      this.tracker := tracker;
      this.digest := digest;
      intents, artifacts, receipts, scope := map[], map[], map[], None;
    }

    /** Keys must be digests, and scopes do not nest. */
    method BindOperation(key: string) returns (bound: bool)
      modifies this`scope
      ensures bound <==>
                |key| == 64 && (forall c | c in key :: '0' <= c <= '9' || 'a' <= c <= 'f') && old(scope).None?
      ensures scope == if bound then Some(Scope(key, 0, [])) else old(scope)
    {
      if !IsOperationKey(key) || scope.Some? {
        return false;
      }
      scope := Some(Scope(key, 0, []));
      return true;
    }

    method ReleaseOperation()
      modifies this`scope
      ensures scope == None
    {
      scope := None;
    }

    /** Inside a scope an id depends only on the scope's key, the ordinal, the provider and the stage. */
    method NewCallId(prefix: string, provider: string, stage: string, random: string) returns (callId: string)
      modifies this`scope
      ensures old(scope).Some? ==>
                && scope == Some(old(scope).value.(ordinal := old(scope).value.ordinal + 1))
                && callId == CallId(digest, prefix, old(scope).value.operationKey, old(scope).value.ordinal + 1, provider, stage)
      ensures old(scope).None? ==> scope == None && callId == prefix + "-" + random
    {
      if scope.Some? {
        var ordinal := scope.value.ordinal + 1;
        scope := Some(scope.value.(ordinal := ordinal));
        return CallId(digest, prefix, scope.value.operationKey, ordinal, provider, stage);
      }
      return prefix + "-" + random;
    }

    method RecordOperationReceipt(receipt: Receipt)
      modifies this`scope
      ensures scope == Noted(old(scope), receipt)
    {
      if scope.Some? && ReceiptDigest(receipt) !in scope.value.receiptHashes {
        scope := Some(scope.value.(receiptHashes := scope.value.receiptHashes + [ReceiptDigest(receipt)]));
      }
    }

    /** Exclusive creation of an artifact, accepting one that already has the same text. */
    method PersistResponseArtifact(attemptId: string, text: string) returns (ok: bool)
      modifies this`artifacts
      ensures ok == PersistArtifact(old(Evidence()), attemptId, text).Some?
      ensures Evidence() == if ok then PersistArtifact(old(Evidence()), attemptId, text).value else old(Evidence())
    {
      if attemptId !in artifacts {
        artifacts := artifacts[attemptId := text];
        return true;
      }
      return TextDigest(artifacts[attemptId]) == TextDigest(text);
    }

    method RecordReceiptFile(receipt: Receipt) returns (ok: bool)
      modifies this`receipts
      ensures ok == RecordReceipt(old(Evidence()), receipt).Some?
      ensures Evidence() == if ok then RecordReceipt(old(Evidence()), receipt).value else old(Evidence())
    {
      if receipt.attemptId !in intents || !Linked(intents[receipt.attemptId], receipt) {
        return false;
      }
      if receipt.attemptId !in receipts {
        receipts := receipts[receipt.attemptId := receipt];
        return true;
      }
      return receipts[receipt.attemptId] == receipt;
    }

    method PublishResponse(intent: Intent, response: Response, status: Status, now: int) returns (ok: bool)
      modifies this`artifacts, this`receipts
      ensures (Evidence(), ok) == Publish(old(Evidence()), intent, response, status, now)
    {
      ok := PersistResponseArtifact(intent.attemptId, response.text);
      if ok {
        ok := RecordReceiptFile(ReceiptFor(intent, response, status, now));
      }
    }

    method RestoreReservation(intent: Intent, now: int) returns (refusal: Option<ErrorCode>)
      modifies tracker
      ensures Tracked(Budget(), refusal) == TrackRestore(old(Budget()), intent, now)
    {
      if tracker == null {
        return None;
      }
      var outcome := tracker.RestoreModelCall(RequestOf(intent), now);
      return if outcome.Refused? then Some(outcome.code) else None;
    }

    method ReserveTracker(intent: Intent, now: int) returns (refusal: Option<ErrorCode>)
      modifies tracker
      ensures Tracked(Budget(), refusal) == TrackEnsure(old(Budget()), intent, now)
    {
      if tracker == null {
        return None;
      }
      var outcome := tracker.EnsureModelCall(RequestOf(intent), now);
      return if outcome.Refused? then Some(outcome.code) else None;
    }

    method RecordTrackerResponse(intent: Intent, response: Response, now: int) returns (refusal: Option<ErrorCode>)
      modifies tracker
      ensures Tracked(Budget(), refusal) == TrackRecord(old(Budget()), intent, response, now)
    {
      if tracker == null {
        return None;
      }
      var outcome := tracker.RecordModelResponse(intent.attemptId, intent.callId, response.text, response.usage, now);
      return if outcome.Refused? then Some(outcome.code) else None;
    }

    method Replay(call: Call, attempt: nat, now: int) returns (outcome: CallOutcome)
      modifies this`scope, tracker
      ensures Attempted(Evidence(), Budget(), outcome, false)
              == ReplayReceipt(old(Evidence()), old(Budget()), call, attempt, now)
      ensures scope == ScopeAfterReplay(old(scope), old(Evidence()), old(Budget()), call, attempt, now)
    {
      var a := AttemptName(call.callId, attempt);
      if a !in receipts || a !in intents || !Linked(intents[a], receipts[a]) {
        return IntegrityRaised;
      }
      var intent := intents[a];
      if !Expected(intent, call, attempt) {
        return ConflictRaised;
      }
      var response := LoadResponse(Evidence(), a);
      match receipts[a].status {
        case PartialFailed =>
          var refusal := RestoreReservation(intent, now);
          return if refusal.Some? then BudgetRaised(refusal.value)
                 else if response.None? then IntegrityRaised else PartialRaised;
        case NotSent => return if response.None? then IntegrityRaised else NotSentRaised;
        case ProviderRejected => return if response.None? then IntegrityRaised else RejectedRaised;
        case BudgetRejected => return IntegrityRaised;
        case Succeeded =>
          var refusal := RestoreReservation(intent, now);
          if refusal.Some? {
            return BudgetRaised(refusal.value);
          }
          if response.None? {
            return IntegrityRaised;
          }
          RecordOperationReceipt(receipts[a]);
          refusal := RecordTrackerResponse(intent, response.value, now);
          return if refusal.Some? then BudgetRaised(refusal.value) else Returned(response.value);
      }
    }

    /** One physical attempt. `reply` is what the provider operation does if it is run; `ran` reports whether it was. */
    method ExecuteAttempt(call: Call, attempt: nat, reply: Reply, now: int, done: int)
      returns (outcome: CallOutcome, ran: bool)
      modifies this, tracker
      ensures Attempted(Evidence(), Budget(), outcome, ran)
              == ExecuteOnce(old(Evidence()), old(Budget()), call, attempt, reply, now, done)
      ensures scope == ScopeAfterExecution(old(scope), old(Evidence()), old(Budget()), call, attempt, reply, now, done)
      ensures outcome.Returned? && scope.Some? ==>
                var a := AttemptName(call.callId, attempt);
                a in receipts && ReceiptDigest(receipts[a]) in scope.value.receiptHashes
    {
      var a := AttemptName(call.callId, attempt);
      ran := false;
      if a in receipts {
        outcome := Replay(call, attempt, now);
        return;
      }
      if a in intents {
        if !Expected(intents[a], call, attempt) {
          outcome := ConflictRaised;
          return;
        }
        var refusal := RestoreReservation(intents[a], now);
        outcome := if refusal.Some? then BudgetRaised(refusal.value) else UncertainRaised(false);
        return;
      }
      var intent := IntentFor(call, attempt, now);
      intents := intents[a := intent];
      var refusal := ReserveTracker(intent, now);
      if refusal.Some? {
        var published := PublishResponse(intent, RejectedResponse(call), BudgetRejected, done);
        outcome := if published then BudgetRaised(refusal.value) else ConflictRaised;
        return;
      }
      ran := true;
      var closing := ClosingOf(call, reply);
      if closing.None? {
        outcome := UncertainRaised(PartialSeen(reply));
        return;
      }
      var published := PublishResponse(intent, closing.value.response, closing.value.status, done);
      if !published {
        outcome := UncertainRaised(PartialSeen(reply));
        return;
      }
      refusal := None;
      if closing.value.status.Succeeded? || closing.value.status.NotSent? {
        refusal := RecordTrackerResponse(intent, closing.value.response, done);
      }
      outcome := ClosedOutcome(closing.value.status, closing.value.response, refusal);
      if outcome.Returned? {
        RecordOperationReceipt(receipts[a]);
      }
    }

    /** Rebuilds the tracker from the evidence, visiting the intents in the given order. */
    method HydrateTrackerFromStore(order: seq<string>, now: int) returns (failure: Option<HydrationFailure>)
      requires tracker != null
      modifies this`scope, tracker
      ensures Hydrated(tracker.View(), failure) == Hydrate(Evidence(), old(tracker.View()), order, now)
      ensures scope == if ReceiptsLinked(Evidence())
                       then ScopeAfterEach(old(scope), Evidence(), old(tracker.View()), order, now)
                       else old(scope)
    {
      if !(forall a | a in receipts :: a in intents && Linked(intents[a], receipts[a])) {
        return Some(EvidenceDamaged);
      }
      var i := 0;
      failure := None;
      while i < |order|
        invariant 0 <= i <= |order| && failure.None?
        invariant HydrateEach(Evidence(), old(tracker.View()), order, now)
                  == HydrateEach(Evidence(), tracker.View(), order[i..], now)
        invariant ScopeAfterEach(old(scope), Evidence(), old(tracker.View()), order, now)
                  == ScopeAfterEach(scope, Evidence(), tracker.View(), order[i..], now)
      {
        assert order[i..][1..] == order[i + 1..];
        failure := HydrateIntent(order[i], now);
        if failure.Some? {
          return;
        }
        i := i + 1;
      }
    }

    method HydrateIntent(a: string, now: int) returns (failure: Option<HydrationFailure>)
      requires tracker != null
      modifies this`scope, tracker
      ensures Hydrated(tracker.View(), failure) == HydrateOne(Evidence(), old(tracker.View()), a, now)
      ensures scope == ScopeAfterIntent(old(scope), Evidence(), old(tracker.View()), a, now)
    {
      if a !in intents || (a in receipts && (receipts[a].status.BudgetRejected? || receipts[a].status.NotSent?)) {
        return None;
      }
      var outcome := tracker.RestoreModelCall(RequestOf(intents[a]), now);
      if outcome.Refused? {
        return Some(OverBudget(outcome.code));
      }
      if a !in receipts || !receipts[a].status.Succeeded? {
        return None;
      }
      var response := LoadResponse(Evidence(), a);
      if response.None? {
        return Some(EvidenceDamaged);
      }
      RecordOperationReceipt(receipts[a]);
      outcome := tracker.RecordModelResponse(a, intents[a].callId, response.value.text, response.value.usage, now);
      return if outcome.Refused? then Some(OverBudget(outcome.code)) else None;
    }
  }
}
