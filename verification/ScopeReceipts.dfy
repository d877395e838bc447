/** Which receipts an operation scope remembers: those of successes, each once, in the order of their first use. */
module ScopeReceipts {
  import opened Common
  import opened AttemptIds
  import opened ModelCalls
  import opened RunBudget
  import opened CallRuntime
  import opened Hydration
  import opened OperationScope
  import opened ModelCallRuntime
  import CallOutcomes

  /** The receipt on file is the one of a success whose text is there. */
  predicate Success(store: Store, a: string) {
    && a in store.receipts && store.receipts[a].status == Succeeded
    && a in store.artifacts && TextDigest(store.artifacts[a]) == store.receipts[a].artifactHash
  }

  /** Nothing but the remembered receipts has changed, and those already there keep their places. */
  predicate Extends(scope: Scope, scope': Scope) {
    && scope'.operationKey == scope.operationKey && scope'.ordinal == scope.ordinal
    && scope.receiptHashes <= scope'.receiptHashes
    && (NoRepeats(scope.receiptHashes) ==> NoRepeats(scope'.receiptHashes))
  }

  lemma NotedExtends(scope: Scope, receipt: Receipt)
    ensures var noted := Noted(Some(scope), receipt);
            && noted.Some? && Extends(scope, noted.value) && ReceiptDigest(receipt) in noted.value.receiptHashes
            && (noted.value == scope || noted.value.receiptHashes == scope.receiptHashes + [ReceiptDigest(receipt)])
  {
  }

  /** Replaying an attempt on file. */
  lemma ReplayNotesSuccess(scope: Scope, store: Store, ledger: Option<Ledger>, call: Call, attempt: nat, now: int)
    requires Intact(store) && AttemptName(call.callId, attempt) in store.receipts
    ensures var replayed, a := ReplayReceipt(store, ledger, call, attempt, now), AttemptName(call.callId, attempt);
            var noted := ScopeAfterReplay(Some(scope), store, ledger, call, attempt, now);
            && (replayed.outcome.Returned? ==> noted == Noted(Some(scope), store.receipts[a]))
            && (noted != Some(scope) ==>
                  && Success(store, a) && (replayed.outcome.Returned? || replayed.outcome.BudgetRaised?)
                  && noted == Noted(Some(scope), store.receipts[a]))
  {
  }

  lemma FirstReturnIsSuccess(store: Store, ledger: Option<Ledger>, call: Call, attempt: nat, reply: Reply, now: int, done: int)
    requires Intact(store) && AttemptName(call.callId, attempt) !in store.intents
    ensures var after := ExecuteOnce(store, ledger, call, attempt, reply, now, done);
            after.outcome.Returned? ==> Success(after.store, AttemptName(call.callId, attempt))
  {
    CallOutcomes.FirstExecutionMeans(store, ledger, call, attempt, reply, now, done);
  }

  /** An attempt adds at most its own receipt, only if that is a success and the caller gets the response or is stopped by
      the tracker, and always when the caller gets the response. */
  lemma AttemptNotes(scope: Scope, store: Store, ledger: Option<Ledger>, call: Call, attempt: nat, reply: Reply, now: int,
                     done: int)
    requires Intact(store)
    ensures var after, a := ExecuteOnce(store, ledger, call, attempt, reply, now, done), AttemptName(call.callId, attempt);
            var noted := ScopeAfterExecution(Some(scope), store, ledger, call, attempt, reply, now, done);
            && noted.Some? && Extends(scope, noted.value)
            && (noted.value != scope ==>
                  && Success(after.store, a) && (after.outcome.Returned? || after.outcome.BudgetRaised?)
                  && noted.value.receiptHashes == scope.receiptHashes + [ReceiptDigest(after.store.receipts[a])])
            && (after.outcome.Returned? ==>
                  a in after.store.receipts && ReceiptDigest(after.store.receipts[a]) in noted.value.receiptHashes)
  {
    var a := AttemptName(call.callId, attempt);
    var after := ExecuteOnce(store, ledger, call, attempt, reply, now, done);
    if a in store.receipts {
      ReplayNotesSuccess(scope, store, ledger, call, attempt, now);
      NotedExtends(scope, store.receipts[a]);
    } else if a !in store.intents {
      FirstReturnIsSuccess(store, ledger, call, attempt, reply, now, done);
      if after.outcome.Returned? {
        NotedExtends(scope, after.store.receipts[a]);
      }
    }
  }

  /** `d` is the receipt of a success among the attempts visited. */
  predicate Visited(store: Store, order: seq<string>, d: ReceiptDigest) {
    exists a :: a in order && a in store.intents && Success(store, a) && d == ReceiptDigest(store.receipts[a])
  }

  lemma IntentNotes(scope: Scope, store: Store, ledger: Ledger, a: string, now: int)
    requires Intact(store)
    ensures var first, noted := HydrateOne(store, ledger, a, now), ScopeAfterIntent(Some(scope), store, ledger, a, now);
            && noted.Some? && Extends(scope, noted.value)
            && (noted.value == scope
                || (a in store.intents && Success(store, a)
                    && noted.value.receiptHashes == scope.receiptHashes + [ReceiptDigest(store.receipts[a])]))
            && (first.failure.None? && a in store.intents && Success(store, a) ==>
                  ReceiptDigest(store.receipts[a]) in noted.value.receiptHashes)
  {
  }

  /** Hydration remembers only successes, and when it runs through all the successes it has visited. */
  lemma {:induction false} HydrationNotes(scope: Scope, store: Store, ledger: Ledger, order: seq<string>, now: int)
    requires Intact(store)
    ensures var noted := ScopeAfterEach(Some(scope), store, ledger, order, now);
            && noted.Some? && Extends(scope, noted.value)
            && (forall d | d in noted.value.receiptHashes :: d in scope.receiptHashes || Visited(store, order, d))
            && (HydrateEach(store, ledger, order, now).failure.None? ==>
                  forall d | Visited(store, order, d) :: d in noted.value.receiptHashes)
    decreases |order|
  {
    if order == [] {
    } else {
      var first, next := HydrateOne(store, ledger, order[0], now), ScopeAfterIntent(Some(scope), store, ledger, order[0], now);
      IntentNotes(scope, store, ledger, order[0], now);
      forall d ensures Visited(store, order, d) <==> Visited(store, [order[0]], d) || Visited(store, order[1..], d) {
        VisitedSplit(store, order, d);
      }
      if first.failure.None? {
        HydrationNotes(next.value, store, first.ledger, order[1..], now);
      }
    }
  }

  lemma VisitedSplit(store: Store, order: seq<string>, d: ReceiptDigest)
    requires order != []
    ensures Visited(store, order, d) <==> Visited(store, [order[0]], d) || Visited(store, order[1..], d)
  {
    assert order == [order[0]] + order[1..];
    if Visited(store, order, d) {
      var a :| a in order && a in store.intents && Success(store, a) && d == ReceiptDigest(store.receipts[a]);
      assert a in [order[0]] || a in order[1..];
    }
  }
}
