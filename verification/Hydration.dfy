/** Rebuilding a budget tracker from the durable evidence. */
module Hydration {
  import opened Common
  import opened TokenUsage
  import opened ModelCalls
  import opened RunBudget
  import opened RunBudgetProofs
  import opened RunBudgetAuthority
  import opened CallRuntime

  // ---------- The fold over the intent files ----------

  /** Why hydration stops: the tracker refuses, or the evidence itself does not hold together. */
  datatype HydrationFailure = OverBudget(code: ErrorCode) | EvidenceDamaged

  datatype Hydrated = Hydrated(ledger: Ledger, failure: Option<HydrationFailure>)

  predicate Uncharged(store: Store, a: string) {
    a in store.receipts && (store.receipts[a].status.BudgetRejected? || store.receipts[a].status.NotSent?)
  }

  /** One intent: nothing if it is closed uncharged; otherwise its reservation, and for a success its settlement. */
  function HydrateOne(store: Store, ledger: Ledger, a: string, now: int): Hydrated {
    if a !in store.intents || Uncharged(store, a) then Hydrated(ledger, None)
    else
      var intent := store.intents[a];
      var restored := Restore(ledger, RequestOf(intent), now);
      if restored.outcome.Refused? then Hydrated(restored.ledger, Some(OverBudget(restored.outcome.code)))
      else if a !in store.receipts || !store.receipts[a].status.Succeeded? then Hydrated(restored.ledger, None)
      else
        match LoadResponse(store, a)
        case None => Hydrated(restored.ledger, Some(EvidenceDamaged))
        case Some(response) =>
          var recorded := Record(restored.ledger, a, intent.callId, response.text, response.usage, now);
          Hydrated(recorded.ledger,
                   if recorded.outcome.Refused? then Some(OverBudget(recorded.outcome.code)) else None)
  }

  function HydrateEach(store: Store, ledger: Ledger, order: seq<string>, now: int): Hydrated
    decreases |order|
  {
    if order == [] then Hydrated(ledger, None)
    else
      var first := HydrateOne(store, ledger, order[0], now);
      if first.failure.Some? then first else HydrateEach(store, first.ledger, order[1..], now)
  }

  /** Every receipt is read first, and each must belong to its intent. */
  predicate ReceiptsLinked(store: Store) {
    forall a | a in store.receipts :: a in store.intents && Linked(store.intents[a], store.receipts[a])
  }

  function Hydrate(store: Store, ledger: Ledger, order: seq<string>, now: int): Hydrated {
    if !ReceiptsLinked(store) then Hydrated(ledger, Some(EvidenceDamaged)) else HydrateEach(store, ledger, order, now)
  }

  /** A receipt that does not belong to its intent stops hydration before anything is charged. */
  lemma DamageStopsHydration(store: Store, ledger: Ledger, order: seq<string>, now: int, a: string)
    requires a in store.receipts
    requires || a !in store.intents || store.receipts[a].callId != store.intents[a].callId
             || store.receipts[a].attemptId != store.intents[a].attemptId || store.receipts[a].intentHash.intent != store.intents[a]
    ensures Hydrate(store, ledger, order, now) == Hydrated(ledger, Some(EvidenceDamaged))
  {
  }

  // ---------- A ledger that mirrors the evidence ----------

  /** The reservation is the one the intent describes, and it is settled exactly as the receipt demands. */
  ghost predicate EntryMirrors(store: Store, a: string, r: Reservation) {
    && a in store.intents
    && a != "" && r.callId != ""
    && r.callId == store.intents[a].callId && r.input == store.intents[a].reservedInput
    && r.output == store.intents[a].reservedOutput
    && (a !in store.receipts ==> r.settlement.None?)
    && (a in store.receipts ==>
          match store.receipts[a].status
          case Succeeded =>
            LoadResponse(store, a).Some? && r.settlement.Some?
            && Charge(r.settlement.value.input, r.settlement.value.output)
               == ChargeFor(r, LoadResponse(store, a).value.text, LoadResponse(store, a).value.usage)
          case NotSent => r.settlement.Some? && r.settlement.value.input == 0 && r.settlement.value.output == 0
          case PartialFailed => r.settlement.None?
          case ProviderRejected => r.settlement.None?
          case BudgetRejected => false)
  }

  /** Every charged attempt among `covered` is in the table, and everything in the table is backed by evidence. */
  ghost predicate Mirrors(store: Store, ledger: Ledger, covered: set<string>) {
    && (forall a | a in ledger.reservations :: EntryMirrors(store, a, ledger.reservations[a]))
    && (forall a | a in covered && a in store.intents && !Uncharged(store, a) :: a in ledger.reservations)
  }

  // ---------- Mirroring determines the totals ----------

  /** The attempts entered in the table that were never sent. */
  function NotSentEntries(store: Store, ledger: Ledger): set<string> {
    set a | a in ledger.reservations && a in store.receipts && store.receipts[a].status.NotSent?
  }

  lemma ChargeDependsOnReservedAmounts(r: Reservation, r': Reservation, text: string, usage: RawUsage)
    requires r.input == r'.input && r.output == r'.output
    ensures ChargeFor(r, text, usage) == ChargeFor(r', text, usage)
  {
  }

  lemma EntriesAgree(store: Store, a: string, r: Reservation, r': Reservation)
    requires EntryMirrors(store, a, r) && EntryMirrors(store, a, r')
    ensures ChargedInput(r) == ChargedInput(r') && PendingOutput(r) == PendingOutput(r')
            && ActualOutput(r) == ActualOutput(r')
  {
  }

  /** One attempt under both ledgers. */
  lemma CompareEntry(store: Store, live: Ledger, rebuilt: Ledger, a: string)
    requires Mirrors(store, live, store.intents.Keys) && Mirrors(store, rebuilt, store.intents.Keys)
    requires a !in NotSentEntries(store, rebuilt)
    ensures a in rebuilt.reservations ==> a in live.reservations && a !in NotSentEntries(store, live)
    ensures a in live.reservations && a !in rebuilt.reservations ==> a in NotSentEntries(store, live)
    ensures a in rebuilt.reservations ==>
              var r, r' := rebuilt.reservations[a], live.reservations[a];
              ChargedInput(r) == ChargedInput(r') && PendingOutput(r) == PendingOutput(r') && ActualOutput(r) == ActualOutput(r')
    ensures a in NotSentEntries(store, live) ==>
              var r := live.reservations[a]; ChargedInput(r) == 0 && PendingOutput(r) == 0 && ActualOutput(r) == 0
  {
    if a in rebuilt.reservations {
      assert EntryMirrors(store, a, rebuilt.reservations[a]);
      EntriesAgree(store, a, rebuilt.reservations[a], live.reservations[a]);
    } else if a in live.reservations {
      assert EntryMirrors(store, a, live.reservations[a]);
    }
  }

  lemma SizesDiffer(store: Store, live: Ledger, rebuilt: Ledger)
    requires Mirrors(store, live, store.intents.Keys) && Mirrors(store, rebuilt, store.intents.Keys)
    requires NotSentEntries(store, rebuilt) == {}
    ensures |live.reservations| == |rebuilt.reservations| + |NotSentEntries(store, live)|
  {
    forall a
      ensures a in live.reservations.Keys <==> a in rebuilt.reservations.Keys + NotSentEntries(store, live)
      ensures !(a in rebuilt.reservations.Keys && a in NotSentEntries(store, live))
    {
      CompareEntry(store, live, rebuilt, a);
    }
    DisjointSizes(live.reservations, rebuilt.reservations, NotSentEntries(store, live));
  }

  lemma DisjointSizes(all: map<string, Reservation>, some: map<string, Reservation>, others: set<string>)
    requires forall a :: a in all.Keys <==> a in some.Keys + others
    requires forall a :: !(a in some.Keys && a in others)
    ensures |all| == |some| + |others|
  {
    assert all.Keys == some.Keys + others;
    assert |all| == |all.Keys| && |some| == |some.Keys|;
  }

  /** Two ledgers mirroring the same evidence, one of them without the attempts never sent,
      agree on every total and differ in provider calls by exactly those attempts. */
  lemma MirrorsDetermineTotals(store: Store, live: Ledger, rebuilt: Ledger)
    requires Accounting(live) && Accounting(rebuilt)
    requires Mirrors(store, live, store.intents.Keys) && Mirrors(store, rebuilt, store.intents.Keys)
    requires NotSentEntries(store, rebuilt) == {}
    ensures rebuilt.totalInput == live.totalInput
    ensures rebuilt.totalOutput == live.totalOutput
    ensures rebuilt.reservedOutput == live.reservedOutput
    ensures live.calls == rebuilt.calls + |NotSentEntries(store, live)|
  {
    forall a { CompareEntry(store, live, rebuilt, a); }
    MapSumAgree(rebuilt.reservations, live.reservations, ChargedInput);
    MapSumAgree(rebuilt.reservations, live.reservations, PendingOutput);
    MapSumAgree(rebuilt.reservations, live.reservations, ActualOutput);
    SizesDiffer(store, live, rebuilt);
  }

  // ---------- Hydration in any order ----------

  ghost predicate UsagesValid(store: Store) {
    forall a | a in store.receipts && store.receipts[a].status.Succeeded? :: !Parse(store.receipts[a].usage).invalid
  }

  ghost predicate NoSettlementErrors(ledger: Ledger) {
    forall a | a in ledger.reservations && ledger.reservations[a].settlement.Some? ::
      ledger.reservations[a].settlement.value.error.None?
  }

  /** A tracker rebuilt from the attempts in `covered` and nothing else. */
  ghost predicate Rebuilt(store: Store, h: Ledger, covered: set<string>) {
    && Accounting(h) && GrantsAddUp(h) && Bounded(h) && NoSettlementErrors(h)
    && Mirrors(store, h, covered) && NotSentEntries(store, h) == {} && h.cost == 0.0
  }

  /** Only the entry of `a` was added, everything else a rebuilt tracker relies on is in place. */
  ghost predicate Entered(h: Ledger, next: Ledger, a: string) {
    && next.limits == h.limits && next.startedAt == h.startedAt && next.cost == 0.0
    && a in next.reservations && next.reservations == h.reservations[a := next.reservations[a]]
    && Accounting(next) && GrantsAddUp(next) && Bounded(next)
  }

  lemma RestoreEnters(h: Ledger, r: Request, now: int)
    requires Accounting(h) && r.attemptId !in h.reservations && h.cost == 0.0
    requires Restore(h, r, now).outcome.Done?
    ensures var step := Restore(h, r, now);
            && step.ledger.limits == h.limits && step.ledger.startedAt == h.startedAt && step.ledger.cost == 0.0
            && r.callId != "" && r.attemptId != "" && r.attemptId in step.ledger.reservations
            && var entry := step.ledger.reservations[r.attemptId];
               && step.ledger.reservations == h.reservations[r.attemptId := entry]
               && entry.callId == r.callId && entry.input == r.input && entry.output == r.output
               && entry.restored && entry.settlement.None?
  {
    RestoreAcceptedExactly(h, r, now);
    ConsumeWidens(RestoreGrant(h, r), r.stage, r.attemptId, InputDeficit(RestoreGrant(h, r), r.input),
                  OutputDeficit(RestoreGrant(h, r), r.output));
  }

  /** A restored attempt settles in time exactly when its usage is valid, and then without an error. */
  lemma RecordSettlesRestored(h: Ledger, a: string, text: string, usage: RawUsage, now: int)
    requires a in h.reservations && h.reservations[a].restored && h.reservations[a].settlement.None?
    ensures var r := h.reservations[a];
            var c := ChargeFor(r, text, usage);
            var step := Record(h, a, r.callId, text, usage, now);
            && (step.outcome.Done? <==> !Expired(h, now) && !Parse(usage).invalid)
            && (step.outcome.Done? ==>
                  && step.ledger.reservations == h.reservations[a := r.(settlement := Some(Settled(c.input, c.output, None)))]
                  && step.ledger.limits == h.limits && step.ledger.startedAt == h.startedAt && step.ledger.cost == h.cost)
  {
  }

  /** The fields a rebuilt entry takes over from its intent. */
  predicate EntryOf(store: Store, a: string, r: Reservation) {
    && a in store.intents && a != "" && r.callId != ""
    && r.callId == store.intents[a].callId && r.input == store.intents[a].reservedInput
    && r.output == store.intents[a].reservedOutput
  }

  lemma RestoreOne(store: Store, h: Ledger, covered: set<string>, a: string, now: int)
    requires Intact(store) && Rebuilt(store, h, covered) && a in store.intents && a !in h.reservations
    requires Restore(h, RequestOf(store.intents[a]), now).outcome.Done?
    ensures var step := Restore(h, RequestOf(store.intents[a]), now);
            && Entered(h, step.ledger, a)
            && EntryOf(store, a, step.ledger.reservations[a])
            && step.ledger.reservations[a].restored && step.ledger.reservations[a].settlement.None?
  {
    RestoreEnters(h, RequestOf(store.intents[a]), now);
    RestoreAccounts(h, RequestOf(store.intents[a]), now);
    RestoreBounded(h, RequestOf(store.intents[a]), now);
  }

  /** Replacing the one entry that was added leaves it the one that was added. */
  lemma EnteredAgain(h: Ledger, restored: Ledger, t: Ledger, a: string, entry: Reservation)
    requires Entered(h, restored, a) && t.reservations == restored.reservations[a := entry]
    requires t.limits == restored.limits && t.startedAt == restored.startedAt && t.cost == restored.cost
    requires Accounting(t) && GrantsAddUp(t) && Bounded(t)
    ensures Entered(h, t, a) && t.reservations[a] == entry
  {
    assert t.reservations == h.reservations[a := entry];
  }

  lemma SettleOne(h: Ledger, restored: Ledger, a: string, response: Response, now: int)
    requires Entered(h, restored, a)
    requires restored.reservations[a].restored && restored.reservations[a].settlement.None?
    requires Record(restored, a, restored.reservations[a].callId, response.text, response.usage, now).outcome.Done?
    ensures var r := restored.reservations[a];
            var c := ChargeFor(r, response.text, response.usage);
            var step := Record(restored, a, r.callId, response.text, response.usage, now);
            && Entered(h, step.ledger, a)
            && step.ledger.reservations[a] == r.(settlement := Some(Settled(c.input, c.output, None)))
  {
    var r := restored.reservations[a];
    var c := ChargeFor(r, response.text, response.usage);
    RecordSettlesRestored(restored, a, response.text, response.usage, now);
    RecordAccounts(restored, a, r.callId, response.text, response.usage, now);
    RecordBounded(restored, a, r.callId, response.text, response.usage, now);
    EnteredAgain(h, restored, Record(restored, a, r.callId, response.text, response.usage, now).ledger, a,
                 r.(settlement := Some(Settled(c.input, c.output, None))));
  }

  /** An attempt hydrated without failure is entered as its evidence demands. */
  lemma EnterOne(store: Store, h: Ledger, covered: set<string>, a: string, now: int)
    requires Intact(store) && Rebuilt(store, h, covered)
    requires a in store.intents && !Uncharged(store, a) && a !in h.reservations
    requires HydrateOne(store, h, a, now).failure.None?
    ensures var next := HydrateOne(store, h, a, now).ledger;
            && Entered(h, next, a)
            && EntryMirrors(store, a, next.reservations[a])
            && (next.reservations[a].settlement.Some? ==> next.reservations[a].settlement.value.error.None?)
  {
    RestoreOne(store, h, covered, a, now);
    if a in store.receipts && store.receipts[a].status.Succeeded? {
      var restored := Restore(h, RequestOf(store.intents[a]), now).ledger;
      SettleOne(h, restored, a, LoadResponse(store, a).value, now);
    }
  }

  /** Visiting an attempt already rebuilt changes nothing. */
  lemma RevisitIsHarmless(store: Store, h: Ledger, covered: set<string>, a: string, now: int)
    requires Intact(store) && Rebuilt(store, h, covered) && a in h.reservations
    ensures HydrateOne(store, h, a, now) == Hydrated(h, None)
  {
    assert EntryMirrors(store, a, h.reservations[a]);
    assert a !in NotSentEntries(store, h);
  }

  /** Entering one attempt with a mirroring entry keeps the tracker rebuilt. */
  lemma EnteredRebuilds(store: Store, h: Ledger, t: Ledger, covered: set<string>, a: string)
    requires Rebuilt(store, h, covered) && Entered(h, t, a) && a !in h.reservations
    requires EntryMirrors(store, a, t.reservations[a]) && !Uncharged(store, a)
    requires t.reservations[a].settlement.Some? ==> t.reservations[a].settlement.value.error.None?
    ensures Rebuilt(store, t, covered + {a})
  {
    forall b | b in t.reservations
      ensures EntryMirrors(store, b, t.reservations[b])
      ensures b !in NotSentEntries(store, t)
    {
      if b != a {
        assert EntryMirrors(store, b, h.reservations[b]);
        assert b !in NotSentEntries(store, h);
      }
    }
  }

  lemma HydrateOneRebuilds(store: Store, h: Ledger, covered: set<string>, a: string, now: int)
    requires Intact(store) && Rebuilt(store, h, covered) && HydrateOne(store, h, a, now).failure.None?
    ensures var next := HydrateOne(store, h, a, now).ledger;
            next.limits == h.limits && next.startedAt == h.startedAt && Rebuilt(store, next, covered + {a})
  {
    if a in store.intents && !Uncharged(store, a) {
      if a in h.reservations {
        RevisitIsHarmless(store, h, covered, a, now);
      } else {
        EnterOne(store, h, covered, a, now);
        EnteredRebuilds(store, h, HydrateOne(store, h, a, now).ledger, covered, a);
      }
    }
  }

  /** Whenever hydration runs through, in any order and with repetitions, the tracker mirrors what was visited. */
  lemma {:induction false} HydrateRebuilds(store: Store, h: Ledger, covered: set<string>, order: seq<string>, now: int)
    requires Intact(store) && Rebuilt(store, h, covered) && HydrateEach(store, h, order, now).failure.None?
    ensures var t := HydrateEach(store, h, order, now).ledger;
            && Rebuilt(store, t, covered + set a | a in order)
            && t.limits == h.limits && t.startedAt == h.startedAt
    decreases |order|
  {
    if order == [] {
      assert covered + (set a | a in order) == covered;
    } else {
      HydrateOneRebuilds(store, h, covered, order[0], now);
      var next := HydrateOne(store, h, order[0], now).ledger;
      HydrateRebuilds(store, next, covered + {order[0]}, order[1..], now);
      assert order == [order[0]] + order[1..];
      assert covered + (set a | a in order) == covered + {order[0]} + set a | a in order[1..];
    }
  }

  // ---------- When hydration runs through ----------

  /** The attempts on disk that a tracker is charged for. */
  function ChargedAttempts(store: Store): set<string> {
    set a | a in store.intents && !Uncharged(store, a)
  }

  /** What the evidence of a charged attempt must show to be restored and, if it succeeded, settled. */
  predicate Restorable(store: Store, a: string)
    requires a in store.intents
  {
    && a != "" && store.intents[a].callId != ""
    && (a in store.receipts && store.receipts[a].status.Succeeded? ==> !Parse(store.receipts[a].usage).invalid)
  }

  ghost predicate AllRestorable(store: Store, attempts: set<string>) {
    forall a | a in attempts && a in store.intents :: Restorable(store, a)
  }

  predicate CostAllowsNothingMore(limits: Limits) {
    limits.maxCost.Some? ==> 0.0 <= limits.maxCost.value
  }

  /** The charged attempts of `order` that are not in the table yet. */
  function Missing(store: Store, h: Ledger, order: seq<string>): set<string> {
    set a | a in order && a in ChargedAttempts(store) && a !in h.reservations
  }

  lemma OnlyChargedInTable(store: Store, h: Ledger, covered: set<string>, a: string)
    requires Rebuilt(store, h, covered) && a in h.reservations
    ensures a in ChargedAttempts(store)
  {
    assert EntryMirrors(store, a, h.reservations[a]);
    assert a !in NotSentEntries(store, h);
  }

  /** Restoring one more attempt fails for time, calls, cost or its own evidence, and for nothing else. */
  lemma OneRunsExactly(store: Store, h: Ledger, covered: set<string>, a: string, now: int)
    requires Intact(store) && Rebuilt(store, h, covered) && a in ChargedAttempts(store) && a !in h.reservations
    ensures var next := HydrateOne(store, h, a, now);
            && (next.failure.None? <==> RunsNext(store, h, a, now))
            && (next.failure.None? ==> Entered(h, next.ledger, a))
  {
    var request := RequestOf(store.intents[a]);
    RestoreAcceptedExactly(h, request, now);
    if Restore(h, request, now).outcome.Done? {
      RestoreOne(store, h, covered, a, now);
      if a in store.receipts && store.receipts[a].status.Succeeded? {
        var restored, response := Restore(h, request, now).ledger, LoadResponse(store, a).value;
        RecordSettlesRestored(restored, a, response.text, response.usage, now);
      }
    }
    if HydrateOne(store, h, a, now).failure.None? {
      EnterOne(store, h, covered, a, now);
    }
  }

  lemma OneMore(some: set<string>, more: set<string>, x: string)
    requires x !in some && forall a :: a in more <==> a in some || a == x
    ensures more == some + {x} && |more| == |some| + 1
  {
    assert more == some + {x};
  }

  lemma MissingAfter(store: Store, h: Ledger, next: Ledger, order: seq<string>)
    requires order != [] && (forall a :: a in next.reservations <==> a in h.reservations || a == order[0])
    requires order[0] in ChargedAttempts(store) && order[0] !in h.reservations
    ensures Missing(store, h, order) == Missing(store, next, order[1..]) + {order[0]}
    ensures |Missing(store, h, order)| == |Missing(store, next, order[1..])| + 1
  {
    forall a ensures a in Missing(store, h, order) <==> a in Missing(store, next, order[1..]) || a == order[0] {
      assert a in order <==> a == order[0] || a in order[1..];
    }
    OneMore(Missing(store, next, order[1..]), Missing(store, h, order), order[0]);
  }

  lemma MissingSkipped(store: Store, h: Ledger, order: seq<string>)
    requires order != [] && (order[0] !in ChargedAttempts(store) || order[0] in h.reservations)
    ensures Missing(store, h, order) == Missing(store, h, order[1..])
  {
    assert order == [order[0]] + order[1..];
  }

  /** What is missing can be restored: in time, within the calls and the cost, by evidence that allows it. */
  ghost predicate Affords(store: Store, h: Ledger, order: seq<string>, now: int) {
    var missing := Missing(store, h, order);
    missing == {} ||
    (&& !Expired(h, now) && h.calls + |missing| <= h.limits.maxCalls && CostAllowsNothingMore(h.limits)
     && AllRestorable(store, missing))
  }

  /** The attempt at the head of the order can be restored. */
  predicate RunsNext(store: Store, h: Ledger, a: string, now: int)
    requires a in store.intents
  {
    !Expired(h, now) && h.calls < h.limits.maxCalls && CostAllowsNothingMore(h.limits) && Restorable(store, a)
  }

  lemma AffordsNext(store: Store, h: Ledger, next: Ledger, order: seq<string>, now: int)
    requires order != [] && order[0] in ChargedAttempts(store) && order[0] !in h.reservations
    requires RunsNext(store, h, order[0], now)
    requires next.limits == h.limits && next.startedAt == h.startedAt && next.calls == h.calls + 1
    requires forall a :: a in next.reservations <==> a in h.reservations || a == order[0]
    ensures Affords(store, h, order, now) <==> Affords(store, next, order[1..], now)
  {
    MissingAfter(store, h, next, order);
  }

  lemma FailsNext(store: Store, h: Ledger, order: seq<string>, now: int)
    requires order != [] && order[0] in ChargedAttempts(store) && order[0] !in h.reservations
    requires !RunsNext(store, h, order[0], now)
    ensures !Affords(store, h, order, now)
  {
    assert order[0] in Missing(store, h, order);
    SubsetSize({order[0]}, Missing(store, h, order));
  }

  lemma EnteredOne(h: Ledger, next: Ledger, a: string)
    requires Accounting(h) && Entered(h, next, a) && a !in h.reservations
    ensures next.limits == h.limits && next.startedAt == h.startedAt && next.calls == h.calls + 1
    ensures forall b :: b in next.reservations <==> b in h.reservations || b == a
  {
  }

  /** Hydration goes on through any order, with repetitions, exactly when it can afford what is missing. */
  lemma {:induction false} EachRunsExactly(store: Store, h: Ledger, covered: set<string>, order: seq<string>, now: int)
    requires Intact(store) && Rebuilt(store, h, covered)
    ensures HydrateEach(store, h, order, now).failure.None? <==> Affords(store, h, order, now)
    decreases |order|
  {
    if order == [] {
    } else if order[0] !in ChargedAttempts(store) {
      MissingSkipped(store, h, order);
      EachRunsExactly(store, h, covered, order[1..], now);
    } else if order[0] in h.reservations {
      RevisitIsHarmless(store, h, covered, order[0], now);
      MissingSkipped(store, h, order);
      EachRunsExactly(store, h, covered, order[1..], now);
    } else {
      OneRunsExactly(store, h, covered, order[0], now);
      if RunsNext(store, h, order[0], now) {
        var next := HydrateOne(store, h, order[0], now).ledger;
        HydrateOneRebuilds(store, h, covered, order[0], now);
        EnteredOne(h, next, order[0]);
        AffordsNext(store, h, next, order, now);
        EachRunsExactly(store, next, covered + {order[0]}, order[1..], now);
      } else {
        FailsNext(store, h, order, now);
      }
    }
  }

  /** A fresh tracker is hydrated from intact evidence, in whatever order, exactly when nothing is charged, or the elapsed
      limit has not passed, the charged attempts do not exceed the call limit, the cost limit is not negative, and every
      charged attempt has its ids and, if it succeeded, a valid usage. */
  lemma HydrationRunsExactly(store: Store, limits: Limits, startedAt: int, order: seq<string>, now: int)
    requires Intact(store) && forall a | a in store.intents :: a in order
    ensures var charged := ChargedAttempts(store);
            Hydrate(store, Fresh(limits, startedAt), order, now).failure.None?
            <==> charged == {}
                 || (&& now - startedAt <= limits.maxElapsed && |charged| <= limits.maxCalls
                     && (limits.maxCost.Some? ==> 0.0 <= limits.maxCost.value)
                     && forall a | a in charged :: Restorable(store, a))
  {
    var h := Fresh(limits, startedAt);
    EachRunsExactly(store, h, {}, order, now);
    assert Missing(store, h, order) == ChargedAttempts(store);
  }

  // ---------- Why it stops ----------

  lemma RefusedForCalls(h: Ledger, r: Request, now: int)
    requires r.attemptId !in h.reservations && !Expired(h, now) && r.callId != "" && r.attemptId != ""
    requires r.input >= 0 && r.output >= 0 && h.calls >= h.limits.maxCalls
    ensures Restore(h, r, now).outcome == Refused(CallsExceeded)
  {
  }

  lemma {:induction false} StopsForCalls(store: Store, h: Ledger, covered: set<string>, order: seq<string>, now: int)
    requires Intact(store) && Rebuilt(store, h, covered) && !Expired(h, now) && CostAllowsNothingMore(h.limits)
    requires AllRestorable(store, ChargedAttempts(store))
    ensures var failure := HydrateEach(store, h, order, now).failure;
            failure.None? || failure == Some(OverBudget(CallsExceeded))
    decreases |order|
  {
    if order == [] {
    } else {
      if order[0] in ChargedAttempts(store) && order[0] !in h.reservations {
        OneRunsExactly(store, h, covered, order[0], now);
        if HydrateOne(store, h, order[0], now).failure.Some? {
          RefusedForCalls(h, RequestOf(store.intents[order[0]]), now);
        }
      } else if order[0] in h.reservations {
        RevisitIsHarmless(store, h, covered, order[0], now);
      }
      if HydrateOne(store, h, order[0], now).failure.None? {
        HydrateOneRebuilds(store, h, covered, order[0], now);
        StopsForCalls(store, HydrateOne(store, h, order[0], now).ledger, covered + {order[0]}, order[1..], now);
      }
    }
  }

  /** Where only the calls are too few, hydration is refused for calls. */
  lemma HydrationStopsForCalls(store: Store, limits: Limits, startedAt: int, order: seq<string>, now: int)
    requires Intact(store) && (forall a | a in store.intents :: a in order) && now - startedAt <= limits.maxElapsed
    requires CostAllowsNothingMore(limits) && AllRestorable(store, ChargedAttempts(store))
    ensures var failure := Hydrate(store, Fresh(limits, startedAt), order, now).failure;
            var charged := |ChargedAttempts(store)|;
            if charged == 0 || charged <= limits.maxCalls then failure.None? else failure == Some(OverBudget(CallsExceeded))
  {
    HydrationRunsExactly(store, limits, startedAt, order, now);
    StopsForCalls(store, Fresh(limits, startedAt), {}, order, now);
  }

  // ---------- Evidence of a bounded tracker ----------

  /** The evidence was written by a run whose tracker `live` kept within calls and cost. */
  ghost predicate Covers(store: Store, live: Ledger, limits: Limits) {
    && Intact(store) && Mirrors(store, live, store.intents.Keys)
    && (live.reservations != map[] ==>
          && |live.reservations| <= limits.maxCalls
          && (limits.maxCost.Some? ==> limits.maxCost.value >= 0.0))
  }

  lemma MissingIsLive(store: Store, live: Ledger, h: Ledger, order: seq<string>)
    requires Mirrors(store, live, store.intents.Keys) && UsagesValid(store)
    ensures Missing(store, h, order) <= live.reservations.Keys && AllRestorable(store, Missing(store, h, order))
  {
    forall a | a in Missing(store, h, order) ensures a in live.reservations && Restorable(store, a) {
      assert EntryMirrors(store, a, live.reservations[a]);
    }
  }

  lemma ApartWithin(a: set<string>, b: set<string>, all: set<string>)
    requires a <= all && b <= all && a !! b
    ensures |a| + |b| <= |all|
  {
    SubsetSize(a + b, all);
  }

  /** With valid usages and in time, hydration of such evidence always runs through. */
  lemma HydrationRunsThrough(store: Store, live: Ledger, h: Ledger, covered: set<string>, order: seq<string>, now: int)
    requires Covers(store, live, h.limits) && UsagesValid(store) && Rebuilt(store, h, covered)
    requires !Expired(h, now) && h.reservations.Keys <= live.reservations.Keys
    ensures HydrateEach(store, h, order, now).failure.None?
  {
    EachRunsExactly(store, h, covered, order, now);
    MissingIsLive(store, live, h, order);
    ApartWithin(h.reservations.Keys, Missing(store, h, order), live.reservations.Keys);
    assert |live.reservations| == |live.reservations.Keys| && |h.reservations| == |h.reservations.Keys|;
  }
}
