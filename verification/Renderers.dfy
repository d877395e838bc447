/** What a selection renders to, and what adding one more entry does to the length. */
module Renderers {
  import opened Common
  import opened Selection

  function Join(separator: string, parts: seq<string>): string {
    if parts == [] then ""
    else if |parts| == 1 then parts[0]
    else Join(separator, parts[..|parts| - 1]) + separator + parts[|parts| - 1]
  }

  lemma JoinOne(separator: string, parts: seq<string>, part: string)
    ensures Join(separator, parts + [part]) == if parts == [] then part else Join(separator, parts) + separator + part
  {
    assert (parts + [part])[..|parts|] == parts;
  }

  /** The chosen entries below `n`, whole and in source order. */
  function Texts(texts: seq<string>, chosen: set<nat>, n: nat): seq<string>
    requires n <= |texts|
  {
    if n == 0 then [] else Texts(texts, chosen, n - 1) + if n - 1 in chosen then [texts[n - 1]] else []
  }

  // ---------- JSON lists ----------

  /** Compact JSON of a list of already rendered items. */
  function RenderJson(texts: seq<string>, chosen: set<nat>): string {
    "[" + Join(",", Texts(texts, chosen, |texts|)) + "]"
  }

  lemma {:induction false} JsonGrows(texts: seq<string>, a: set<nat>, b: set<nat>, n: nat)
    requires a <= b && n <= |texts|
    ensures |Texts(texts, a, n)| <= |Texts(texts, b, n)|
    ensures |Join(",", Texts(texts, a, n))| <= |Join(",", Texts(texts, b, n))|
  {
    if n == 0 {
    } else {
      JsonGrows(texts, a, b, n - 1);
      TextsStep(texts, a, n);
      TextsStep(texts, b, n);
    }
  }

  lemma TextsStep(texts: seq<string>, chosen: set<nat>, n: nat)
    requires 0 < n <= |texts|
    ensures n - 1 !in chosen ==> Texts(texts, chosen, n) == Texts(texts, chosen, n - 1)
    ensures n - 1 in chosen ==>
              var before := Texts(texts, chosen, n - 1);
              && |Texts(texts, chosen, n)| == |before| + 1
              && |Join(",", Texts(texts, chosen, n))| == |Join(",", before)| + |texts[n - 1]| + if before == [] then 0 else 1
  {
    JoinOne(",", Texts(texts, chosen, n - 1), texts[n - 1]);
  }

  function JsonCost(texts: seq<string>): Cost {
    chosen => |RenderJson(texts, chosen)|
  }

  lemma JsonMonotone(texts: seq<string>)
    ensures Monotone(JsonCost(texts))
  {
    forall a: set<nat>, b: set<nat> | a <= b ensures JsonCost(texts)(a) <= JsonCost(texts)(b) {
      JsonGrows(texts, a, b, |texts|);
    }
  }

  /** The required items are in, and every other item exactly when the list that shows it fitted at its turn. */
  ghost predicate ItemsByTurn(texts: seq<string>, relevance: seq<nat>, preferRecent: bool, required: set<int>, chosen: set<nat>,
                              maxChars: int, maxItems: Option<int>)
    requires |relevance| == |texts|
  {
    && (forall i: nat | i < |texts| && i in required :: i in chosen)
    && forall i: nat | i < |texts| && i !in required ::
         var there := AtTurn((set k: nat | k < |texts| && k in required), relevance, preferRecent, chosen, i);
         i in chosen <==> && (maxItems.Some? ==> |there| < maxItems.value)
                          && |"[" + Join(",", Texts(texts, there + {i}, |texts|)) + "]"| <= maxChars
  }

  lemma ChosenItemsByTurn(texts: seq<string>, relevance: seq<nat>, preferRecent: bool, required: set<int>, kept: set<nat>,
                          order: seq<nat>, chosen: set<nat>, maxChars: int, maxItems: Option<int>)
    requires |relevance| == |texts| && order == Order(relevance, preferRecent, |relevance|)
    requires kept == set i: nat | i < |texts| && i in required
    requires Greedy(JsonCost(texts), kept, order, chosen, maxChars, maxItems)
    ensures ItemsByTurn(texts, relevance, preferRecent, required, chosen, maxChars, maxItems)
  {
    GreedyByTurn(JsonCost(texts), kept, relevance, preferRecent, order, chosen, maxChars, maxItems);
  }

  /** Selects complete JSON items, each exactly when it fitted at its turn; without an item limit no omitted item would
      still fit. */
  method SelectJsonItems(texts: seq<string>, relevance: seq<nat>, preferRecent: bool, required: set<int>, maxChars: int,
                         maxItems: Option<int>) returns (result: Chosen, items: seq<string>)
    requires |relevance| == |texts|
    ensures var kept := set i: nat | i < |texts| && i in required;
            result.Chosen? <==> (maxItems.Some? ==> |kept| <= maxItems.value) && |RenderJson(texts, kept)| <= maxChars
    ensures result.Chosen? ==>
              && items == Texts(texts, result.indexes, |texts|)
              && |"[" + Join(",", items) + "]"| <= maxChars
              && (maxItems.Some? ==> |result.indexes| <= maxItems.value)
              && (forall i | 0 <= i < |texts| && i in required :: i in result.indexes)
              && (forall i | i in result.indexes :: i < |texts|)
              && ItemsByTurn(texts, relevance, preferRecent, required, result.indexes, maxChars, maxItems)
              && (maxItems.None? ==>
                    forall i: nat | i < |texts| && i !in result.indexes :: |RenderJson(texts, result.indexes + {i})| > maxChars)
  {
    var kept := set i: nat | i < |texts| && i in required;
    var order := Order(relevance, preferRecent, |relevance|);
    OrderIsRanking(relevance, preferRecent, |relevance|);
    var cost := JsonCost(texts);
    result := ChooseIndexes(cost, kept, order, maxChars, maxItems);
    items := [];
    if result.Chosen? {
      items := Texts(texts, result.indexes, |texts|);
      JsonMonotone(texts);
      ChosenItemsByTurn(texts, relevance, preferRecent, required, kept, order, result.indexes, maxChars, maxItems);
      forall i: nat | i < |texts| && i !in result.indexes && maxItems.None?
        ensures |RenderJson(texts, result.indexes + {i})| > maxChars
      {
        NothingOmittedFits(cost, kept, order, result.indexes, maxChars, i);
      }
    }
  }

  // ---------- Paragraphs ----------

  const MARKER := "[\U{2026}\U{5B8C}\U{6574}\U{6761}\U{76EE}\U{5DF2}\U{7701}\U{7565}\U{2026}]"

  const BREAK := "\n\n"

  /** The chosen index below `n` nearest to it, or -1. */
  function Last(chosen: set<nat>, n: nat): (last: int)
    ensures -1 <= last < n && (last >= 0 ==> last in chosen)
    ensures forall k: nat | last < k < n :: k !in chosen
  {
    if n == 0 then -1 else if n - 1 in chosen then n - 1 else Last(chosen, n - 1)
  }

  function Gap(skips: bool): seq<string> {
    if skips then [MARKER] else []
  }

  /** Chosen paragraphs in source order, with a marker wherever some were skipped between two of them. */
  function Parts(texts: seq<string>, chosen: set<nat>, n: nat): seq<string>
    requires n <= |texts|
  {
    if n == 0 then []
    else if n - 1 !in chosen then Parts(texts, chosen, n - 1)
    else
      Parts(texts, chosen, n - 1) + Gap(Last(chosen, n - 1) != -1 && Last(chosen, n - 1) != n - 2) + [texts[n - 1]]
  }

  function RenderParagraphs(texts: seq<string>, chosen: set<nat>): string {
    Join(BREAK, Parts(texts, chosen, |texts|))
  }

  // ---------- The chosen entries one by one ----------

  predicate At(where: seq<nat>, k: nat, i: nat) {
    exists p: nat :: p < k && p < |where| && where[p] == i
  }

  /** The first `k` of these places are all chosen indexes below `n`, smallest first. */
  ghost predicate Lists(where: seq<nat>, k: nat, chosen: set<nat>, n: nat) {
    && k <= |where| && (forall p, q | 0 <= p < q < k :: where[p] < where[q])
    && (forall i: nat :: At(where, k, i) <==> i in chosen && i < n)
  }

  lemma AtLess(where: seq<nat>, k: nat, i: nat)
    requires k < |where|
    ensures At(where, k + 1, i) <==> At(where, k, i) || where[k] == i
  {
    if where[k] == i {
      assert At(where, k + 1, i);
    }
  }

  lemma ListsNothing(where: seq<nat>, k: nat, chosen: set<nat>)
    requires Lists(where, k, chosen, 0)
    ensures k == 0
  {
    assert k > 0 ==> At(where, k, where[k - 1]);
  }

  lemma ListsLess(where: seq<nat>, k: nat, chosen: set<nat>, n: nat)
    requires Lists(where, k, chosen, n + 1)
    ensures n !in chosen ==> Lists(where, k, chosen, n)
    ensures n in chosen ==> k > 0 && where[k - 1] == n && Lists(where, k - 1, chosen, n)
  {
    if n in chosen {
      assert At(where, k, n);
      assert At(where, k, where[k - 1]);
      forall i: nat ensures At(where, k - 1, i) <==> i in chosen && i < n {
        AtLess(where, k - 1, i);
      }
    }
  }

  lemma LastIsLast(where: seq<nat>, k: nat, chosen: set<nat>, n: nat)
    requires Lists(where, k, chosen, n)
    ensures Last(chosen, n) == if k == 0 then -1 else where[k - 1]
  {
    assert Last(chosen, n) >= 0 ==> At(where, k, Last(chosen, n));
    assert k > 0 ==> At(where, k, where[k - 1]);
  }

  /** The chosen texts are those at the chosen places, in order. */
  lemma {:induction false} TextsInOrder(texts: seq<string>, chosen: set<nat>, n: nat, where: seq<nat>, k: nat)
    requires n <= |texts| && Lists(where, k, chosen, n)
    ensures |Texts(texts, chosen, n)| == k
    ensures forall p | 0 <= p < k :: where[p] < |texts| && Texts(texts, chosen, n)[p] == texts[where[p]]
  {
    if n == 0 {
      ListsNothing(where, k, chosen);
    } else {
      ListsLess(where, k, chosen, n - 1);
      TextsInOrder(texts, chosen, n - 1, where, if n - 1 in chosen then k - 1 else k);
      TextsStep(texts, chosen, n);
    }
  }

  /** The texts at the first `k` places, with a marker wherever one or more places are skipped. */
  function Marked(texts: seq<string>, where: seq<nat>, k: nat): seq<string>
    requires k <= |where| && forall p | 0 <= p < k :: where[p] < |texts|
  {
    if k == 0 then []
    else Marked(texts, where, k - 1) + Gap(k > 1 && where[k - 2] + 1 != where[k - 1]) + [texts[where[k - 1]]]
  }

  /** The rendered parts of what is chosen below `n` are the marked texts at the first `k` places. */
  predicate ShowsMarked(texts: seq<string>, chosen: set<nat>, n: nat, where: seq<nat>, k: nat) {
    && n <= |texts| && k <= |where| && (forall p | 0 <= p < k :: where[p] < |texts|)
    && Parts(texts, chosen, n) == Marked(texts, where, k)
  }

  lemma MarkedAtChosen(texts: seq<string>, chosen: set<nat>, n: nat, where: seq<nat>, k: nat)
    requires n < |texts| && k < |where| && where[k] == n && n in chosen && Lists(where, k, chosen, n)
    requires ShowsMarked(texts, chosen, n, where, k)
    ensures ShowsMarked(texts, chosen, n + 1, where, k + 1)
  {
    LastIsLast(where, k, chosen, n);
  }

  lemma MarkedPassedOver(texts: seq<string>, chosen: set<nat>, n: nat, where: seq<nat>, k: nat)
    requires n < |texts| && n !in chosen && ShowsMarked(texts, chosen, n, where, k)
    ensures ShowsMarked(texts, chosen, n + 1, where, k)
  {
  }

  /** Whatever holds at the start and passes from index to index and from place to place holds at the end. */
  lemma {:induction false} AlongPlaces(chosen: set<nat>, n: nat, where: seq<nat>, k: nat, shows: (nat, nat) -> bool)
    requires Lists(where, k, chosen, n) && shows(0, 0)
    requires forall m: nat, j: nat | m < n && m !in chosen && shows(m, j) :: shows(m + 1, j)
    requires forall m: nat, j: nat |
               m < n && j < |where| && where[j] == m && m in chosen && Lists(where, j, chosen, m) && shows(m, j) :: shows(m + 1, j + 1)
    ensures shows(n, k)
  {
    if n == 0 {
      ListsNothing(where, k, chosen);
    } else {
      ListsLess(where, k, chosen, n - 1);
      var j: nat := if n - 1 in chosen then k - 1 else k;
      AlongPlaces(chosen, n - 1, where, j, shows);
      assert shows(n - 1, j);
    }
  }

  lemma AllPassedOver(texts: seq<string>, chosen: set<nat>, n: nat, where: seq<nat>, shows: (nat, nat) -> bool)
    requires n <= |texts| && forall m: nat, j: nat :: shows(m, j) <==> ShowsMarked(texts, chosen, m, where, j)
    ensures forall m: nat, j: nat | m < n && m !in chosen && shows(m, j) :: shows(m + 1, j)
  {
    forall m: nat, j: nat | m < n && m !in chosen && shows(m, j) ensures shows(m + 1, j) {
      MarkedPassedOver(texts, chosen, m, where, j);
    }
  }

  lemma AllAtChosen(texts: seq<string>, chosen: set<nat>, n: nat, where: seq<nat>, shows: (nat, nat) -> bool)
    requires n <= |texts| && forall m: nat, j: nat :: shows(m, j) <==> ShowsMarked(texts, chosen, m, where, j)
    ensures forall m: nat, j: nat |
              m < n && j < |where| && where[j] == m && m in chosen && Lists(where, j, chosen, m) && shows(m, j) :: shows(m + 1, j + 1)
  {
    forall m: nat, j: nat | m < n && j < |where| && where[j] == m && m in chosen && Lists(where, j, chosen, m) && shows(m, j)
      ensures shows(m + 1, j + 1)
    {
      MarkedAtChosen(texts, chosen, m, where, j);
    }
  }

  /** A rendered choice shows the chosen paragraphs in order, and a marker exactly where some were skipped between two. */
  lemma PartsInOrder(texts: seq<string>, chosen: set<nat>, n: nat, where: seq<nat>, k: nat)
    requires n <= |texts| && Lists(where, k, chosen, n)
    ensures ShowsMarked(texts, chosen, n, where, k)
  {
    ghost var shows := (m: nat, j: nat) => ShowsMarked(texts, chosen, m, where, j);
    AllPassedOver(texts, chosen, n, where, shows);
    AllAtChosen(texts, chosen, n, where, shows);
    AlongPlaces(chosen, n, where, k, shows);
  }

  /** What joining paragraph `m` to a predecessor `p` costs beyond its own text. */
  function Link(p: int, m: int): nat {
    if p == -1 then 0 else if p == m - 1 then |BREAK| else |BREAK| + |MARKER| + |BREAK|
  }

  /** The paragraph at `n - 1` joined to what comes before it. */
  lemma JoinParagraph(texts: seq<string>, chosen: set<nat>, n: nat, before: seq<string>)
    requires 0 < n <= |texts| && n - 1 in chosen && before == Parts(texts, chosen, n - 1)
    requires before == [] <==> Last(chosen, n - 1) == -1
    ensures Parts(texts, chosen, n) != []
    ensures |Join(BREAK, Parts(texts, chosen, n))|
         == |Join(BREAK, before)| + Link(Last(chosen, n - 1), n - 1) + |texts[n - 1]|
  {
    if Last(chosen, n - 1) == -1 || Last(chosen, n - 1) == n - 2 {
      assert Parts(texts, chosen, n) == before + [texts[n - 1]];
      JoinOne(BREAK, before, texts[n - 1]);
    } else {
      assert Parts(texts, chosen, n) == before + [MARKER] + [texts[n - 1]];
      JoinOne(BREAK, before, MARKER);
      JoinOne(BREAK, before + [MARKER], texts[n - 1]);
    }
  }

  lemma {:induction false} PartsLength(texts: seq<string>, chosen: set<nat>, n: nat)
    requires 0 < n <= |texts|
    ensures Parts(texts, chosen, n) == [] <==> Last(chosen, n) == -1
    ensures |Join(BREAK, Parts(texts, chosen, n))|
         == |Join(BREAK, Parts(texts, chosen, n - 1))|
            + if n - 1 in chosen then Link(Last(chosen, n - 1), n - 1) + |texts[n - 1]| else 0
  {
    if n == 1 {
    } else {
      PartsLength(texts, chosen, n - 1);
    }
    if n - 1 in chosen {
      JoinParagraph(texts, chosen, n, Parts(texts, chosen, n - 1));
    }
  }

  /** The chosen index nearest after `i` and below `n`, or `n`. */
  function After(chosen: set<nat>, i: nat, n: nat): (next: nat)
    requires i < n
    ensures i < next <= n && (next < n ==> next in chosen)
    ensures forall k: nat | i < k < next :: k !in chosen
    decreases n
  {
    if n == i + 1 then n
    else if After(chosen, i, n - 1) < n - 1 then After(chosen, i, n - 1)
    else if n - 1 in chosen then n - 1 else n
  }

  /** By how much the rendering of the indexes below `n` grows when `i` is added. */
  function Growth(texts: seq<string>, chosen: set<nat>, i: nat, n: nat): int
    requires i < n <= |texts|
  {
    var p, m := Last(chosen, i), After(chosen, i, n);
    |texts[i]| + Link(p, i) + if m < n then Link(i, m) - Link(p, m) else 0
  }

  lemma LastUnchanged(chosen: set<nat>, i: nat, n: nat)
    requires i !in chosen
    ensures n <= i ==> Last(chosen + {i}, n) == Last(chosen, n)
    ensures n > i && After(chosen, i, n) == n ==> Last(chosen + {i}, n) == i && Last(chosen, n) == Last(chosen, i)
    ensures n > i && After(chosen, i, n) < n ==> Last(chosen + {i}, n) == Last(chosen, n)
  {
  }

  lemma {:induction false} SameBefore(texts: seq<string>, chosen: set<nat>, i: nat, n: nat)
    requires i !in chosen && n <= i && n <= |texts|
    ensures Parts(texts, chosen + {i}, n) == Parts(texts, chosen, n)
  {
    if n == 0 {
    } else {
      SameBefore(texts, chosen, i, n - 1);
      LastUnchanged(chosen, i, n - 1);
    }
  }

  /** How the growth develops when the paragraph at `n - 1` comes in. */
  lemma GrowthStep(texts: seq<string>, chosen: set<nat>, i: nat, n: nat)
    requires i !in chosen && i < n - 1 < |texts|
    ensures Growth(texts, chosen, i, n) == Growth(texts, chosen, i, n - 1)
              + if n - 1 in chosen then Link(Last(chosen + {i}, n - 1), n - 1) - Link(Last(chosen, n - 1), n - 1) else 0
  {
    LastUnchanged(chosen, i, n - 1);
  }

  lemma {:induction false} AddingGrows(texts: seq<string>, chosen: set<nat>, i: nat, n: nat)
    requires i !in chosen && i < n <= |texts|
    ensures |Join(BREAK, Parts(texts, chosen + {i}, n))|
         == |Join(BREAK, Parts(texts, chosen, n))| + Growth(texts, chosen, i, n)
  {
    PartsLength(texts, chosen, n);
    PartsLength(texts, chosen + {i}, n);
    if i == n - 1 {
      SameBefore(texts, chosen, i, i);
      LastUnchanged(chosen, i, i);
    } else {
      AddingGrows(texts, chosen, i, n - 1);
      GrowthStep(texts, chosen, i, n);
    }
  }

  /** Adding a paragraph makes the rendering shorter exactly when it closes a one-paragraph gap
      and is shorter than the marker it replaces. */
  lemma AddingShortensExactly(texts: seq<string>, chosen: set<nat>, i: nat)
    requires i < |texts| && i !in chosen
    ensures |RenderParagraphs(texts, chosen + {i})| < |RenderParagraphs(texts, chosen)|
            <==> i >= 1 && i - 1 in chosen && i + 1 < |texts| && i + 1 in chosen && |texts[i]| < |MARKER|
  {
    AddingGrows(texts, chosen, i, |texts|);
    assert |MARKER| == 11 && |BREAK| == 2;
  }

  // ---------- When a paragraph selection is maximal ----------

  function ParagraphCost(texts: seq<string>): Cost {
    chosen => |RenderParagraphs(texts, chosen)|
  }

  /** No paragraph strictly inside the text is shorter than the marker. */
  predicate LongInside(texts: seq<string>) {
    forall i | 0 < i < |texts| - 1 :: |texts[i]| >= |MARKER|
  }

  lemma AddingNeverShortens(texts: seq<string>, chosen: set<nat>, i: nat)
    requires i < |texts| ==> !(0 < i < |texts| - 1 && {i - 1, i, i + 1} <= chosen + {i} && |texts[i]| < |MARKER|)
    ensures |RenderParagraphs(texts, chosen)| <= |RenderParagraphs(texts, chosen + {i})|
  {
    if i in chosen {
      assert chosen + {i} == chosen;
    } else if i < |texts| {
      AddingShortensExactly(texts, chosen, i);
    } else {
      SameBefore(texts, chosen, i, |texts|);
    }
  }

  /** The length of three neighbouring paragraphs, joined. */
  function AroundLength(texts: seq<string>, i: nat): nat
    requires 0 < i < |texts| - 1
  {
    |texts[i - 1]| + |BREAK| + |texts[i]| + |BREAK| + |texts[i + 1]|
  }

  lemma {:induction false} PartsGrow(texts: seq<string>, chosen: set<nat>, m: nat, n: nat)
    requires m <= n <= |texts|
    ensures |Join(BREAK, Parts(texts, chosen, m))| <= |Join(BREAK, Parts(texts, chosen, n))|
    decreases n - m
  {
    if m == n {
    } else {
      PartsGrow(texts, chosen, m, n - 1);
      PartsLength(texts, chosen, n);
    }
  }

  /** A rendering is at least as long as any three neighbours in it. */
  lemma NeighboursFit(texts: seq<string>, chosen: set<nat>, i: nat)
    requires 0 < i < |texts| - 1 && {i - 1, i, i + 1} <= chosen
    ensures |RenderParagraphs(texts, chosen)| >= AroundLength(texts, i)
  {
    assert i - 1 in chosen && i in chosen && i + 1 in chosen;
    PartsLength(texts, chosen, i);
    PartsLength(texts, chosen, i + 1);
    PartsLength(texts, chosen, i + 2);
    PartsGrow(texts, chosen, i + 2, |texts|);
  }

  /** Wherever a paragraph inside is shorter than the marker, it and its neighbours are too long for the limit. */
  predicate ShortOnesCrowded(texts: seq<string>, maxChars: int) {
    forall i {:trigger AroundLength(texts, i)} | 0 < i < |texts| - 1 && |texts[i]| < |MARKER| ::
      AroundLength(texts, i) > maxChars
  }

  lemma CrowdedStaysTooLong(texts: seq<string>, maxChars: int)
    requires ShortOnesCrowded(texts, maxChars)
    ensures OnceTooLong(ParagraphCost(texts), maxChars)
  {
    forall s: set<nat>, i: nat | ParagraphCost(texts)(s) > maxChars ensures ParagraphCost(texts)(s + {i}) > maxChars {
      if 0 < i < |texts| - 1 && {i - 1, i, i + 1} <= s + {i} && |texts[i]| < |MARKER| {
        NeighboursFit(texts, s + {i}, i);
      } else {
        AddingNeverShortens(texts, s, i);
      }
    }
  }

  /** The indexes chosen for these relevances. */
  function PickedParagraphs(texts: seq<string>, relevance: seq<nat>, preferRecent: bool, required: set<nat>, maxChars: int)
    : set<nat>
    requires |relevance| == |texts|
  {
    Picks(ParagraphCost(texts), Order(relevance, preferRecent, |texts|), required, maxChars, None)
  }

  /** Every paragraph left out would be too much in the end. */
  predicate NothingLeftFits(texts: seq<string>, chosen: set<nat>, maxChars: int) {
    forall i: nat {:trigger chosen + {i}} | i < |texts| && i !in chosen :: |RenderParagraphs(texts, chosen + {i})| > maxChars
  }

  predicate Maximal(texts: seq<string>, relevance: seq<nat>, preferRecent: bool, required: set<nat>, maxChars: int)
    requires |relevance| == |texts|
  {
    NothingLeftFits(texts, PickedParagraphs(texts, relevance, preferRecent, required, maxChars), maxChars)
  }

  lemma CrowdedIsMaximal(texts: seq<string>, relevance: seq<nat>, preferRecent: bool, required: set<nat>, maxChars: int)
    requires ShortOnesCrowded(texts, maxChars)
    requires |relevance| == |texts| && |RenderParagraphs(texts, required)| <= maxChars
    ensures Maximal(texts, relevance, preferRecent, required, maxChars)
  {
    var cost, order := ParagraphCost(texts), Order(relevance, preferRecent, |texts|);
    OrderIsRanking(relevance, preferRecent, |texts|);
    CrowdedStaysTooLong(texts, maxChars);
    var picked := PickedParagraphs(texts, relevance, preferRecent, required, maxChars);
    forall i: nat | i < |texts| && i !in picked ensures |RenderParagraphs(texts, picked + {i})| > maxChars {
      PicksLeaveNothing(cost, order, required, maxChars, i);
    }
  }

  /** The last paragraph strictly inside the first `n` that is shorter than the marker, or 0. */
  function LastShort(texts: seq<string>, n: nat): (i: nat)
    requires n < |texts|
    ensures i == 0 || (0 < i < n && |texts[i]| < |MARKER|)
    ensures forall k | i < k < n :: |texts[k]| >= |MARKER|
  {
    if n <= 1 then 0 else if |texts[n - 1]| < |MARKER| then n - 1 else LastShort(texts, n - 1)
  }

  /** What the paragraphs `i` and `i + 1` add when `i` is the last short one inside. */
  lemma AroundLastShort(texts: seq<string>, i: nat)
    requires 0 < i < |texts| - 1 && |texts[i]| < |MARKER| && forall k | i < k < |texts| - 1 :: |texts[k]| >= |MARKER|
    ensures var all := UpTo(|texts|); var rest := all - {i, i + 1};
            && |RenderParagraphs(texts, rest)| <= |RenderParagraphs(texts, rest + {i})| <= |RenderParagraphs(texts, all)|
            && |RenderParagraphs(texts, all)| < |RenderParagraphs(texts, rest + {i + 1})|
            && rest + {i} + {i + 1} == all
  {
    var all := UpTo(|texts|);
    var rest := all - {i, i + 1};
    assert rest + {i} == all - {i + 1} && rest + {i + 1} == all - {i};
    assert all - {i} + {i} == all && all - {i + 1} + {i + 1} == all;
    AddingShortensExactly(texts, rest, i);
    AddingShortensExactly(texts, all - {i}, i);
    AddingShortensExactly(texts, all - {i + 1}, i + 1);
  }

  /** Without matching terms and with recent ones preferred, the later of two neighbours has its turn first. */
  lemma LaterFirst(none: seq<nat>, order: seq<nat>, i: nat) returns (p: nat, q: nat)
    requires i + 1 < |none| && (forall k | 0 <= k < |none| :: none[k] == 0) && order == Order(none, true, |none|)
    ensures p < q < |order| && order[p] == i + 1 && order[q] == i && NoRepeats(order)
  {
    OrderIsRanking(none, true, |none|);
    assert i in order && i + 1 in order;
    p :| p < |order| && order[p] == i + 1;
    q :| q < |order| && order[q] == i;
    assert !RanksBefore(none, true, i, i + 1);
  }

  lemma OnlyTheEarlier(cost: Cost, order: seq<nat>, rest: set<nat>, n: nat, i: nat, p: nat, q: nat, maxChars: int)
    requires NoRepeats(order) && Below(order, n) && p < q < |order| && order[p] == i + 1 && order[q] == i
    requires rest == UpTo(n) - {i, i + 1} && cost(rest + {i + 1}) > maxChars && cost(rest + {i}) <= maxChars
    ensures Picks(cost, order, rest, maxChars, None) == rest + {i}
  {
    assert forall k | k in order :: k in rest || k == i || k == i + 1;
    PicksTheSecond(cost, order, rest, p, q, maxChars);
  }

  lemma OneLeftOut(texts: seq<string>, none: seq<nat>, rest: set<nat>, i: nat, maxChars: int)
    requires |none| == |texts| && i + 1 < |texts| && i + 1 !in rest && |RenderParagraphs(texts, rest + {i} + {i + 1})| <= maxChars
    requires PickedParagraphs(texts, none, true, rest, maxChars) == rest + {i}
    ensures !Maximal(texts, none, true, rest, maxChars)
  {
    assert i + 1 !in rest + {i};
  }

  /** With everything else required, the most recent first and room for exactly the whole, the paragraph after the last
      short one is refused beside the gap that the short one then closes. */
  lemma ShortInsideIsNotMaximal(texts: seq<string>, i: nat)
    requires 0 < i < |texts| - 1 && |texts[i]| < |MARKER| && forall k | i < k < |texts| - 1 :: |texts[k]| >= |MARKER|
    ensures var all := UpTo(|texts|);
            && |RenderParagraphs(texts, all - {i, i + 1})| <= |RenderParagraphs(texts, all)|
            && !Maximal(texts, seq(|texts|, _ => 0), true, all - {i, i + 1}, |RenderParagraphs(texts, all)|)
  {
    var n, none := |texts|, seq(|texts|, _ => 0);
    var rest, limit := UpTo(n) - {i, i + 1}, |RenderParagraphs(texts, UpTo(n))|;
    AroundLastShort(texts, i);
    var p, q := LaterFirst(none, Order(none, true, n), i);
    OnlyTheEarlier(ParagraphCost(texts), Order(none, true, n), rest, n, i, p, q, limit);
    OneLeftOut(texts, none, rest, i, limit);
  }
}
