/** Greedy selection of whole entries under a character budget. */
module Selection {
  import opened Common

  /** The length of what a set of indexes renders to. */
  type Cost = set<nat> -> nat

  // ---------- Ranking ----------

  const RELEVANCE_WEIGHT := 10000

  /** `relevance` counts matching query terms; recency runs from 1 to the number of entries. */
  function Score(relevance: nat, ordinal: nat, count: nat, preferRecent: bool): int {
    relevance * RELEVANCE_WEIGHT + if preferRecent then ordinal + 1 else count - ordinal
  }

  predicate RanksBefore(relevance: seq<nat>, preferRecent: bool, i: nat, j: nat)
    requires i < |relevance| && j < |relevance|
  {
    var a, b := Score(relevance[i], i, |relevance|, preferRecent), Score(relevance[j], j, |relevance|, preferRecent);
    a > b || (a == b && i <= j)
  }

  predicate Below(order: seq<nat>, n: nat) {
    forall a | 0 <= a < |order| :: order[a] < n
  }

  function Insert(relevance: seq<nat>, preferRecent: bool, i: nat, ranked: seq<nat>): (r: seq<nat>)
    requires i < |relevance| && Below(ranked, i)
    ensures Below(r, i + 1) && |r| == |ranked| + 1
  {
    if ranked == [] || RanksBefore(relevance, preferRecent, i, ranked[0]) then [i] + ranked
    else [ranked[0]] + Insert(relevance, preferRecent, i, ranked[1..])
  }

  lemma {:induction false} InsertKeeps(relevance: seq<nat>, preferRecent: bool, i: nat, ranked: seq<nat>)
    requires i < |relevance| && Below(ranked, i)
    ensures forall k :: k in Insert(relevance, preferRecent, i, ranked) <==> k in ranked || k == i
    decreases |ranked|
  {
    if ranked == [] || RanksBefore(relevance, preferRecent, i, ranked[0]) {
    } else {
      InsertKeeps(relevance, preferRecent, i, ranked[1..]);
      assert ranked == [ranked[0]] + ranked[1..];
    }
  }

  lemma {:induction false} InsertDistinct(relevance: seq<nat>, preferRecent: bool, i: nat, ranked: seq<nat>)
    requires i < |relevance| && Below(ranked, i) && NoRepeats(ranked)
    ensures NoRepeats(Insert(relevance, preferRecent, i, ranked))
    decreases |ranked|
  {
    if ranked == [] || RanksBefore(relevance, preferRecent, i, ranked[0]) {
    } else {
      InsertDistinct(relevance, preferRecent, i, ranked[1..]);
      InsertKeeps(relevance, preferRecent, i, ranked[1..]);
      var rest := Insert(relevance, preferRecent, i, ranked[1..]);
      forall b | 0 <= b < |rest| ensures rest[b] != ranked[0] {
        assert rest[b] in rest;
      }
    }
  }

  predicate Ranked(relevance: seq<nat>, preferRecent: bool, order: seq<nat>) {
    && Below(order, |relevance|)
    && forall a, b | 0 <= a < b < |order| :: RanksBefore(relevance, preferRecent, order[a], order[b])
  }

  lemma {:induction false} InsertRanked(relevance: seq<nat>, preferRecent: bool, i: nat, ranked: seq<nat>)
    requires i < |relevance| && Below(ranked, i) && Ranked(relevance, preferRecent, ranked)
    ensures Ranked(relevance, preferRecent, Insert(relevance, preferRecent, i, ranked))
    decreases |ranked|
  {
    if ranked == [] || RanksBefore(relevance, preferRecent, i, ranked[0]) {
    } else {
      InsertRanked(relevance, preferRecent, i, ranked[1..]);
      InsertKeeps(relevance, preferRecent, i, ranked[1..]);
      var rest := Insert(relevance, preferRecent, i, ranked[1..]);
      forall b | 0 <= b < |rest| ensures RanksBefore(relevance, preferRecent, ranked[0], rest[b]) {
        assert rest[b] in rest;
        if rest[b] != i {
          var c :| 0 <= c < |ranked[1..]| && ranked[1..][c] == rest[b];
          assert ranked[c + 1] == rest[b];
        }
      }
    }
  }

  /** All indexes below `n`, best first. */
  function Order(relevance: seq<nat>, preferRecent: bool, n: nat): (order: seq<nat>)
    requires n <= |relevance|
    ensures Below(order, n) && |order| == n
  {
    if n == 0 then [] else Insert(relevance, preferRecent, n - 1, Order(relevance, preferRecent, n - 1))
  }

  lemma {:induction false} OrderNamesAll(relevance: seq<nat>, preferRecent: bool, n: nat)
    requires n <= |relevance|
    ensures forall k: nat | k < n :: k in Order(relevance, preferRecent, n)
  {
    if n == 0 {
    } else {
      OrderNamesAll(relevance, preferRecent, n - 1);
      InsertKeeps(relevance, preferRecent, n - 1, Order(relevance, preferRecent, n - 1));
    }
  }

  lemma {:induction false} OrderDistinct(relevance: seq<nat>, preferRecent: bool, n: nat)
    requires n <= |relevance|
    ensures NoRepeats(Order(relevance, preferRecent, n))
  {
    if n == 0 {
    } else {
      OrderDistinct(relevance, preferRecent, n - 1);
      InsertDistinct(relevance, preferRecent, n - 1, Order(relevance, preferRecent, n - 1));
    }
  }

  lemma OneMoreRanked(relevance: seq<nat>, preferRecent: bool, i: nat, ranked: seq<nat>, order: seq<nat>)
    requires i < |relevance| && Below(ranked, i) && Ranked(relevance, preferRecent, ranked)
    requires order == Insert(relevance, preferRecent, i, ranked)
    ensures Ranked(relevance, preferRecent, order)
  {
    InsertRanked(relevance, preferRecent, i, ranked);
  }

  lemma {:induction false} OrderRanked(relevance: seq<nat>, preferRecent: bool, n: nat)
    requires n <= |relevance|
    ensures Ranked(relevance, preferRecent, Order(relevance, preferRecent, n))
  {
    if n == 0 {
    } else {
      OrderRanked(relevance, preferRecent, n - 1);
      OneMoreRanked(relevance, preferRecent, n - 1, Order(relevance, preferRecent, n - 1), Order(relevance, preferRecent, n));
    }
  }

  /** The ranking is sorted and names every entry exactly once. */
  lemma OrderIsRanking(relevance: seq<nat>, preferRecent: bool, n: nat)
    requires n <= |relevance|
    ensures Ranked(relevance, preferRecent, Order(relevance, preferRecent, n))
    ensures NoRepeats(Order(relevance, preferRecent, n))
    ensures forall k: nat | k < n :: k in Order(relevance, preferRecent, n)
  {
    OrderRanked(relevance, preferRecent, n);
    OrderDistinct(relevance, preferRecent, n);
    OrderNamesAll(relevance, preferRecent, n);
  }

  /** More matching terms always outrank recency exactly while there are at most ten thousand entries. */
  lemma RelevanceFirstExactly(count: nat)
    ensures count <= RELEVANCE_WEIGHT <==>
            forall r: nat, s: nat, i: nat, j: nat, recent: bool | r > s && i < count && j < count ::
              Score(r, i, count, recent) > Score(s, j, count, recent)
  {
    if count > RELEVANCE_WEIGHT {
      assert Score(1, 0, count, true) <= Score(0, count - 1, count, true);
    }
  }

  function UpTo(n: nat): (r: set<nat>)
    ensures forall i: nat :: i in r <==> i < n
  {
    if n == 0 then {} else UpTo(n - 1) + {n - 1}
  }

  predicate AllBelow(indexes: set<nat>, n: nat) {
    forall i | i in indexes :: i < n
  }

  // ---------- The greedy choice ----------

  datatype Chosen = Chosen(indexes: set<nat>) | TooManyRequired | RequiredTooLong

  predicate HasRoom(chosen: set<nat>, maxItems: Option<int>) {
    maxItems.None? || |chosen| < maxItems.value
  }

  /** What was already chosen when the entry at `position` of the order had its turn. */
  function Before(required: set<nat>, order: seq<nat>, chosen: set<nat>, position: nat): set<nat>
    requires position <= |order|
  {
    set k | k in chosen && (k in required || k in order[..position])
  }

  predicate Accepts(cost: Cost, sofar: set<nat>, i: nat, maxChars: int, maxItems: Option<int>) {
    HasRoom(sofar, maxItems) && cost(sofar + {i}) <= maxChars
  }

  /** Each entry is in exactly when it is required, or there was room for it and it fitted at its turn. */
  predicate Greedy(cost: Cost, required: set<nat>, order: seq<nat>, chosen: set<nat>, maxChars: int, maxItems: Option<int>) {
    && required <= chosen
    && (forall k | k in chosen :: k in required || k in order)
    && forall p | 0 <= p < |order| :: order[p] !in required ==>
         (order[p] in chosen <==> Accepts(cost, Before(required, order, chosen, p), order[p], maxChars, maxItems))
  }

  /** What walking the rest of an order adds to a choice; it ends as soon as the item limit is reached. */
  function Picks(cost: Cost, order: seq<nat>, chosen: set<nat>, maxChars: int, maxItems: Option<int>): set<nat>
    decreases |order|
  {
    if order == [] then chosen
    else if order[0] in chosen then Picks(cost, order[1..], chosen, maxChars, maxItems)
    else if !HasRoom(chosen, maxItems) then chosen
    else if cost(chosen + {order[0]}) <= maxChars then Picks(cost, order[1..], chosen + {order[0]}, maxChars, maxItems)
    else Picks(cost, order[1..], chosen, maxChars, maxItems)
  }

  function Choose(cost: Cost, required: set<nat>, order: seq<nat>, maxChars: int, maxItems: Option<int>): Chosen {
    if maxItems.Some? && |required| > maxItems.value then TooManyRequired
    else if cost(required) > maxChars then RequiredTooLong
    else Chosen(Picks(cost, order, required, maxChars, maxItems))
  }

  lemma {:induction false} PicksFit(cost: Cost, order: seq<nat>, chosen: set<nat>, maxChars: int, maxItems: Option<int>)
    requires cost(chosen) <= maxChars
    ensures var picked := Picks(cost, order, chosen, maxChars, maxItems);
            chosen <= picked && cost(picked) <= maxChars && forall k | k in picked :: k in chosen || k in order
    decreases |order|
  {
    if order == [] {
    } else if order[0] in chosen || (HasRoom(chosen, maxItems) && cost(chosen + {order[0]}) > maxChars) {
      PicksFit(cost, order[1..], chosen, maxChars, maxItems);
    } else if HasRoom(chosen, maxItems) {
      PicksFit(cost, order[1..], chosen + {order[0]}, maxChars, maxItems);
    }
  }

  /** The greedy condition as far as the first `n` entries of the order are concerned. */
  predicate Walked(cost: Cost, required: set<nat>, order: seq<nat>, chosen: set<nat>, maxChars: int, maxItems: Option<int>, n: nat)
    requires n <= |order|
  {
    && required <= chosen
    && (forall k | k in chosen :: k in required || k in order[..n])
    && forall p | 0 <= p < n :: order[p] !in required ==>
         (order[p] in chosen <==> Accepts(cost, Before(required, order, chosen, p), order[p], maxChars, maxItems))
  }

  /** One more entry is passed over or taken in. */
  lemma WalksOn(cost: Cost, required: set<nat>, order: seq<nat>, chosen: set<nat>, maxChars: int, maxItems: Option<int>, n: nat)
    requires NoRepeats(order) && n < |order| && Walked(cost, required, order, chosen, maxChars, maxItems, n)
    ensures var next := if order[n] !in chosen && Accepts(cost, chosen, order[n], maxChars, maxItems) then chosen + {order[n]} else chosen;
            Walked(cost, required, order, next, maxChars, maxItems, n + 1)
  {
    var index := order[n];
    var next := if index !in chosen && Accepts(cost, chosen, index, maxChars, maxItems) then chosen + {index} else chosen;
    assert order[..n + 1] == order[..n] + [index];
    assert index !in order[..n];
    assert Before(required, order, chosen, n) == chosen;
    forall p | 0 <= p <= n ensures Before(required, order, next, p) == Before(required, order, chosen, p) {
      assert index !in order[..p];
    }
  }

  lemma WalkedAll(cost: Cost, required: set<nat>, order: seq<nat>, chosen: set<nat>, maxChars: int, maxItems: Option<int>)
    requires Walked(cost, required, order, chosen, maxChars, maxItems, |order|)
    ensures Greedy(cost, required, order, chosen, maxChars, maxItems)
  {
    assert order[..|order|] == order;
  }

  /** Once the item limit is reached nothing that follows is chosen. */
  lemma LeaveRest(cost: Cost, required: set<nat>, order: seq<nat>, chosen: set<nat>, maxChars: int, maxItems: Option<int>, n: nat)
    requires NoRepeats(order) && n <= |order| && !HasRoom(chosen, maxItems)
    requires Walked(cost, required, order, chosen, maxChars, maxItems, n)
    ensures Greedy(cost, required, order, chosen, maxChars, maxItems)
  {
    forall p | n <= p < |order| && order[p] !in required
      ensures order[p] !in chosen && !Accepts(cost, Before(required, order, chosen, p), order[p], maxChars, maxItems)
    {
      assert order[..n] <= order[..p];
      assert forall k | k in order[..n] :: k in order[..p];
      assert Before(required, order, chosen, p) == chosen;
      assert order[p] !in order[..n];
    }
  }

  /** From any point of the walk on. */
  lemma {:induction false} PicksWalk(cost: Cost, required: set<nat>, order: seq<nat>, chosen: set<nat>, maxChars: int,
                                     maxItems: Option<int>, n: nat)
    requires NoRepeats(order) && n <= |order| && Walked(cost, required, order, chosen, maxChars, maxItems, n)
    ensures Greedy(cost, required, order, Picks(cost, order[n..], chosen, maxChars, maxItems), maxChars, maxItems)
    decreases |order| - n
  {
    if n == |order| {
      WalkedAll(cost, required, order, chosen, maxChars, maxItems);
    } else if order[n] !in chosen && !HasRoom(chosen, maxItems) {
      LeaveRest(cost, required, order, chosen, maxChars, maxItems, n);
    } else {
      WalksOn(cost, required, order, chosen, maxChars, maxItems, n);
      assert order[n..][1..] == order[n + 1..];
      var next := if order[n] !in chosen && Accepts(cost, chosen, order[n], maxChars, maxItems) then chosen + {order[n]} else chosen;
      PicksWalk(cost, required, order, next, maxChars, maxItems, n + 1);
    }
  }

  /** What the walk picks is the greedy choice. */
  lemma PicksGreedy(cost: Cost, required: set<nat>, order: seq<nat>, maxChars: int, maxItems: Option<int>)
    requires NoRepeats(order)
    ensures Greedy(cost, required, order, Picks(cost, order, required, maxChars, maxItems), maxChars, maxItems)
  {
    PicksWalk(cost, required, order, required, maxChars, maxItems, 0);
    assert order[0..] == order;
  }

  /** Walks the order once, adding what fits; it gives up as soon as the item limit is reached. */
  method ChooseIndexes(cost: Cost, required: set<nat>, order: seq<nat>, maxChars: int, maxItems: Option<int>)
      returns (result: Chosen)
    requires NoRepeats(order)
    ensures result == Choose(cost, required, order, maxChars, maxItems)
    ensures result.TooManyRequired? <==> maxItems.Some? && |required| > maxItems.value
    ensures result.RequiredTooLong? <==> !result.TooManyRequired? && cost(required) > maxChars
    ensures result.Chosen? ==>
              && Greedy(cost, required, order, result.indexes, maxChars, maxItems)
              && cost(result.indexes) <= maxChars
              && (maxItems.Some? ==> |result.indexes| <= maxItems.value)
  {
    if maxItems.Some? && |required| > maxItems.value {
      return TooManyRequired;
    }
    if cost(required) > maxChars {
      return RequiredTooLong;
    }
    PicksGreedy(cost, required, order, maxChars, maxItems);
    var chosen := required;
    var n := 0;
    while n < |order|
      invariant n <= |order| && cost(chosen) <= maxChars && (maxItems.Some? ==> |chosen| <= maxItems.value)
      invariant Picks(cost, order[n..], chosen, maxChars, maxItems) == Picks(cost, order, required, maxChars, maxItems)
    {
      var index := order[n];
      assert order[n..][1..] == order[n + 1..];
      if index !in chosen {
        if !HasRoom(chosen, maxItems) {
          return Chosen(chosen);
        }
        if cost(chosen + {index}) <= maxChars {
          chosen := chosen + {index};
        }
      }
      n := n + 1;
    }
    return Chosen(chosen);
  }

  /** The greedy condition leaves no freedom: it determines the selection. */
  lemma {:induction false} GreedyAgrees(cost: Cost, required: set<nat>, order: seq<nat>, a: set<nat>, b: set<nat>,
                                        maxChars: int, maxItems: Option<int>, n: nat)
    requires NoRepeats(order) && n <= |order|
    requires Greedy(cost, required, order, a, maxChars, maxItems) && Greedy(cost, required, order, b, maxChars, maxItems)
    ensures Before(required, order, a, n) == Before(required, order, b, n)
  {
    if n == 0 {
      assert Before(required, order, a, 0) == required == Before(required, order, b, 0);
    } else {
      GreedyAgrees(cost, required, order, a, b, maxChars, maxItems, n - 1);
      assert order[..n] == order[..n - 1] + [order[n - 1]];
      assert order[n - 1] in a <==> order[n - 1] in b;
      assert forall k :: k in Before(required, order, a, n) <==>
               k in Before(required, order, a, n - 1) || (k == order[n - 1] && k in a);
      assert forall k :: k in Before(required, order, b, n) <==>
               k in Before(required, order, b, n - 1) || (k == order[n - 1] && k in b);
    }
  }

  lemma GreedyUnique(cost: Cost, required: set<nat>, order: seq<nat>, a: set<nat>, b: set<nat>, maxChars: int,
                     maxItems: Option<int>)
    requires NoRepeats(order)
    requires Greedy(cost, required, order, a, maxChars, maxItems) && Greedy(cost, required, order, b, maxChars, maxItems)
    ensures a == b
  {
    GreedyAgrees(cost, required, order, a, b, maxChars, maxItems, |order|);
    assert order[..|order|] == order;
    assert Before(required, order, a, |order|) == a;
    assert Before(required, order, b, |order|) == b;
  }

  // ---------- The choice in terms of terms and places ----------

  /** Entry `i` has its turn before entry `j`. A matching term weighs as much as ten thousand places; without them the later
      entry comes first if recent ones are preferred, and the earlier one if not. */
  predicate TurnsBefore(relevance: seq<nat>, preferRecent: bool, i: nat, j: nat)
    requires i < |relevance| && j < |relevance|
  {
    var lead := 10000 * (relevance[i] - relevance[j]) + if preferRecent then i - j else j - i;
    lead > 0 || (lead == 0 && i < j)
  }

  /** What was there when `i` had its turn: the required entries, and those chosen before it. */
  function AtTurn(required: set<nat>, relevance: seq<nat>, preferRecent: bool, chosen: set<nat>, i: nat): set<nat>
    requires i < |relevance|
  {
    set k | k in chosen && (k in required || (k < |relevance| && TurnsBefore(relevance, preferRecent, k, i)))
  }

  /** The required entries are in, and any other one exactly when there was room for it and it fitted at its turn. */
  ghost predicate PickedByTurn(cost: Cost, required: set<nat>, relevance: seq<nat>, preferRecent: bool, chosen: set<nat>,
                               maxChars: int, maxItems: Option<int>)
  {
    && required <= chosen
    && (forall k | k in chosen :: k in required || k < |relevance|)
    && forall i: nat | i < |relevance| && i !in required ::
         var there := AtTurn(required, relevance, preferRecent, chosen, i);
         i in chosen <==> (maxItems.Some? ==> |there| < maxItems.value) && cost(there + {i}) <= maxChars
  }

  lemma TurnIsRank(relevance: seq<nat>, preferRecent: bool, i: nat, j: nat)
    requires i < |relevance| && j < |relevance| && i != j
    ensures TurnsBefore(relevance, preferRecent, i, j) <==> RanksBefore(relevance, preferRecent, i, j)
    ensures RanksBefore(relevance, preferRecent, i, j) <==> !RanksBefore(relevance, preferRecent, j, i)
  {
  }

  /** In a ranking the entries in front of one are those that have their turn before it. */
  lemma InFront(relevance: seq<nat>, preferRecent: bool, order: seq<nat>, p: nat, k: nat)
    requires Ranked(relevance, preferRecent, order) && NoRepeats(order) && p < |order| && k in order
    ensures k < |relevance| && (k in order[..p] <==> TurnsBefore(relevance, preferRecent, k, order[p]))
  {
    var q :| 0 <= q < |order| && order[q] == k;
    if q != p {
      TurnIsRank(relevance, preferRecent, k, order[p]);
    }
    if q < p {
      assert order[..p][q] == k;
    }
  }

  lemma BeforeIsAtTurn(required: set<nat>, relevance: seq<nat>, preferRecent: bool, order: seq<nat>, chosen: set<nat>, p: nat)
    requires Ranked(relevance, preferRecent, order) && NoRepeats(order) && p < |order|
    requires forall k: nat | k < |relevance| :: k in order
    requires forall k | k in chosen :: k in required || k in order
    ensures order[p] < |relevance|
    ensures Before(required, order, chosen, p) == AtTurn(required, relevance, preferRecent, chosen, order[p])
  {
    forall k | k in chosen && k in order
      ensures k < |relevance| && (k in order[..p] <==> TurnsBefore(relevance, preferRecent, k, order[p]))
    {
      InFront(relevance, preferRecent, order, p, k);
    }
    forall k ensures k in Before(required, order, chosen, p) <==> k in AtTurn(required, relevance, preferRecent, chosen, order[p]) {
      if k in order[..p] {
        assert k in order;
      }
    }
  }

  /** The greedy walk along the ranking gives every entry its turn. */
  lemma GreedyByTurn(cost: Cost, required: set<nat>, relevance: seq<nat>, preferRecent: bool, order: seq<nat>, chosen: set<nat>,
                     maxChars: int, maxItems: Option<int>)
    requires order == Order(relevance, preferRecent, |relevance|)
    requires Greedy(cost, required, order, chosen, maxChars, maxItems)
    ensures PickedByTurn(cost, required, relevance, preferRecent, chosen, maxChars, maxItems)
  {
    OrderIsRanking(relevance, preferRecent, |relevance|);
    forall i: nat | i < |relevance| && i !in required
      ensures var there := AtTurn(required, relevance, preferRecent, chosen, i);
              i in chosen <==> (maxItems.Some? ==> |there| < maxItems.value) && cost(there + {i}) <= maxChars
    {
      assert i in order;
      var p :| 0 <= p < |order| && order[p] == i;
      BeforeIsAtTurn(required, relevance, preferRecent, order, chosen, p);
    }
  }

  /** So does the choice that is computed. */
  lemma ChosenByTurn(cost: Cost, required: set<nat>, relevance: seq<nat>, preferRecent: bool, maxChars: int, maxItems: Option<int>)
    ensures var choice := Choose(cost, required, Order(relevance, preferRecent, |relevance|), maxChars, maxItems);
            && (choice.Chosen? <==> (maxItems.Some? ==> |required| <= maxItems.value) && cost(required) <= maxChars)
            && (choice.Chosen? ==>
                  && PickedByTurn(cost, required, relevance, preferRecent, choice.indexes, maxChars, maxItems)
                  && cost(choice.indexes) <= maxChars)
  {
    var order := Order(relevance, preferRecent, |relevance|);
    OrderIsRanking(relevance, preferRecent, |relevance|);
    if cost(required) <= maxChars {
      PicksGreedy(cost, required, order, maxChars, maxItems);
      PicksFit(cost, order, required, maxChars, maxItems);
      GreedyByTurn(cost, required, relevance, preferRecent, order, Picks(cost, order, required, maxChars, maxItems), maxChars, maxItems);
    }
  }

  // ---------- Nothing that would still fit is left out ----------

  ghost predicate Monotone(cost: Cost) {
    forall a: set<nat>, b: set<nat> | a <= b :: cost(a) <= cost(b)
  }

  /** With a renderer that never shrinks when entries are added and no item limit, no omitted entry would still fit. */
  lemma NothingOmittedFits(cost: Cost, required: set<nat>, order: seq<nat>, chosen: set<nat>, maxChars: int, i: nat)
    requires Monotone(cost) && Greedy(cost, required, order, chosen, maxChars, None)
    requires i in order && i !in chosen
    ensures cost(chosen + {i}) > maxChars
  {
    var p :| 0 <= p < |order| && order[p] == i;
    var before := Before(required, order, chosen, p);
    assert before + {i} <= chosen + {i};
    assert !Accepts(cost, before, i, maxChars, None);
  }

  lemma {:induction false} PicksKeepOut(cost: Cost, order: seq<nat>, chosen: set<nat>, maxChars: int, maxItems: Option<int>, i: nat)
    requires i !in chosen && i !in order
    ensures i !in Picks(cost, order, chosen, maxChars, maxItems)
    decreases |order|
  {
    if order == [] {
    } else if order[0] in chosen {
      PicksKeepOut(cost, order[1..], chosen, maxChars, maxItems, i);
    } else {
      PicksKeepOut(cost, order[1..], chosen + {order[0]}, maxChars, maxItems, i);
      PicksKeepOut(cost, order[1..], chosen, maxChars, maxItems, i);
    }
  }

  /** What is too long stays too long whatever is added to it. */
  ghost predicate OnceTooLong(cost: Cost, maxChars: int) {
    forall s: set<nat>, i: nat | cost(s) > maxChars :: cost(s + {i}) > maxChars
  }

  lemma {:induction false} StaysTooLong(cost: Cost, maxChars: int, a: set<nat>, b: set<nat>)
    requires OnceTooLong(cost, maxChars) && cost(a) > maxChars && a <= b
    ensures cost(b) > maxChars
    decreases b - a
  {
    if b - a == {} {
      forall i | i in b ensures i in a {
        assert i !in b - a;
      }
      assert a == b;
    } else {
      var i :| i in b - a;
      assert cost(a + {i}) > maxChars;
      StaysTooLong(cost, maxChars, a + {i}, b);
    }
  }

  /** Then the choice as it is computed leaves out nothing that would fit, even if the renderer sometimes shrinks. */
  lemma {:induction false} PicksLeaveNothing(cost: Cost, order: seq<nat>, chosen: set<nat>, maxChars: int, i: nat)
    requires OnceTooLong(cost, maxChars) && cost(chosen) <= maxChars
    requires i in order && i !in Picks(cost, order, chosen, maxChars, None)
    ensures cost(Picks(cost, order, chosen, maxChars, None) + {i}) > maxChars
    decreases |order|
  {
    PicksFit(cost, order, chosen, maxChars, None);
    if order[0] in chosen {
      PicksLeaveNothing(cost, order[1..], chosen, maxChars, i);
    } else if cost(chosen + {order[0]}) <= maxChars {
      PicksFit(cost, order[1..], chosen + {order[0]}, maxChars, None);
      PicksLeaveNothing(cost, order[1..], chosen + {order[0]}, maxChars, i);
    } else if order[0] == i {
      StaysTooLong(cost, maxChars, chosen + {i}, Picks(cost, order, chosen, maxChars, None) + {i});
    } else {
      PicksLeaveNothing(cost, order[1..], chosen, maxChars, i);
    }
  }

  /** Of the only two entries left, the first is refused and the second accepted. */
  lemma {:induction false} PicksTheSecond(cost: Cost, order: seq<nat>, chosen: set<nat>, p: nat, q: nat, maxChars: int)
    requires NoRepeats(order) && p < |order| && q < |order| && order[p] !in chosen && order[q] !in chosen
    requires p <= q && forall k | k in order :: k in chosen || k == order[p] || k == order[q]
    requires p < q ==> cost(chosen + {order[p]}) > maxChars
    requires cost(chosen + {order[q]}) <= maxChars
    ensures Picks(cost, order, chosen, maxChars, None) == chosen + {order[q]}
    decreases |order|
  {
    var rest := order[1..];
    assert forall k | k in rest :: k in order;
    if q == 0 {
      PicksNothing(cost, rest, chosen + {order[0]}, maxChars);
    } else {
      assert order[0] in order;
      assert p > 0 ==> order[0] in chosen;
      var p' := if p > 0 then p - 1 else q - 1;
      assert rest[p'] == (if p > 0 then order[p] else order[q]) && rest[q - 1] == order[q];
      PicksTheSecond(cost, rest, chosen, p', q - 1, maxChars);
    }
  }

  lemma {:induction false} PicksNothing(cost: Cost, order: seq<nat>, chosen: set<nat>, maxChars: int)
    requires forall k | k in order :: k in chosen
    ensures Picks(cost, order, chosen, maxChars, None) == chosen
    decreases |order|
  {
    if order == [] {
    } else {
      assert order[0] in order;
      PicksNothing(cost, order[1..], chosen, maxChars);
    }
  }
}
