/** Texts on which the paragraph selection leaves out a paragraph that would still fit, and texts on which it never does. */
module ParagraphGaps {
  import opened Common
  import opened Selection
  import opened Renderers
  import opened Paragraphs
  import opened ParagraphMaximality

  /** Three short paragraphs; the first blank line is a double one, so the text is a character longer than needed. */
  const GAPPED := "aa\n\n\nbb\n\ncc"

  const GAPPED_PIECES := ["aa", "bb", "cc"]

  predicate VisibleLetters(space: set<char>) {
    SpaceLike(space) && 'a' !in space && 'b' !in space && 'c' !in space
  }

  /** Two visible characters, three newlines, two characters, two newlines, two characters. */
  predicate Gapped(text: string, space: set<char>) {
    && SpaceLike(space) && |text| == 11
    && text[2] == '\n' && text[3] == '\n' && text[4] == '\n' && text[7] == '\n' && text[8] == '\n'
    && text[0] !in space && text[1] !in space && text[5] !in space && text[6] !in space && text[9] !in space
    && text[10] !in space
  }

  lemma NoSeparatorFrom(text: string, space: set<char>, p: nat)
    requires SpaceLike(space) && p + 2 <= |text| && text[p] !in space && text[p + 1] !in space
    ensures SeparatorsFrom(text, p) == SeparatorsFrom(text, p + 2)
  {
    assert SeparatorEnd(text, p).None? && SeparatorEnd(text, p + 1).None?;
    assert SeparatorsFrom(text, p + 1) == SeparatorsFrom(text, p + 2);
  }

  lemma GappedSeparators(text: string, space: set<char>)
    requires Gapped(text, space)
    ensures SeparatorsFrom(text, 0) == [Span(2, 5), Span(7, 9)]
  {
    NoSeparatorFrom(text, space, 0);
    assert SkipNewlines(text, 5) == 5 && SkipNewlines(text, 4) == 5;
    assert SeparatorEnd(text, 2) == Some(5);
    assert SeparatorsFrom(text, 2) == [Span(2, 5)] + SeparatorsFrom(text, 5);
    NoSeparatorFrom(text, space, 5);
    assert SeparatorEnd(text, 7) == Some(9);
    assert SeparatorsFrom(text, 7) == [Span(7, 9)] + SeparatorsFrom(text, 9);
    NoSeparatorFrom(text, space, 9);
    assert SeparatorsFrom(text, 11) == [];
  }

  lemma TwoLetters(text: string, space: set<char>, start: nat)
    requires start + 2 <= |text| && text[start] !in space && text[start + 1] !in space
    ensures Nonblank(text, space, start, start + 2) == [Span(start, start + 2)]
  {
  }

  lemma GappedSpans(text: string, space: set<char>, separators: seq<Span>)
    requires Gapped(text, space) && separators == [Span(2, 5), Span(7, 9)]
    ensures GapSpans(text, space, separators, 3) == [Span(0, 2), Span(5, 7), Span(9, 11)]
  {
    TwoLetters(text, space, 0);
    TwoLetters(text, space, 5);
    TwoLetters(text, space, 9);
    assert GapSpans(text, space, separators, 1) == [Span(0, 2)];
    assert GapSpans(text, space, separators, 2) == [Span(0, 2)] + [Span(5, 7)];
  }

  lemma GappedEntries(space: set<char>)
    requires VisibleLetters(space)
    ensures Entries(GAPPED, space) == [Span(0, 2), Span(5, 7), Span(9, 11)]
    ensures Pieces(GAPPED, [Span(0, 2), Span(5, 7), Span(9, 11)]) == GAPPED_PIECES
  {
    GappedSeparators(GAPPED, space);
    GappedSpans(GAPPED, space, [Span(2, 5), Span(7, 9)]);
    assert GAPPED[0..2] == "aa" && GAPPED[5..7] == "bb" && GAPPED[9..11] == "cc";
  }

  lemma GappedLengths()
    ensures |RenderParagraphs(GAPPED_PIECES, {0})| == 2
    ensures |RenderParagraphs(GAPPED_PIECES, {0, 2})| == 19
    ensures |RenderParagraphs(GAPPED_PIECES, {0, 1})| == 6
    ensures |RenderParagraphs(GAPPED_PIECES, {0, 1, 2})| == 10
  {
    assert |MARKER| == 11 && |BREAK| == 2;
    ThreeParagraphs({0});
    ThreeParagraphs({0, 2});
    ThreeParagraphs({0, 1});
    ThreeParagraphs({0, 1, 2});
  }

  lemma ThreeParagraphs(chosen: set<nat>)
    ensures |RenderParagraphs(GAPPED_PIECES, chosen)|
         == (if 0 in chosen then 2 else 0)
            + (if 1 in chosen then Link(Last(chosen, 1), 1) + 2 else 0)
            + (if 2 in chosen then Link(Last(chosen, 2), 2) + 2 else 0)
  {
    PartsLength(GAPPED_PIECES, chosen, 1);
    PartsLength(GAPPED_PIECES, chosen, 2);
    PartsLength(GAPPED_PIECES, chosen, 3);
  }

  lemma LatestFirst()
    ensures Order([0, 0, 0], true, 3) == [2, 1, 0]
  {
    assert Order([0, 0, 0], true, 0) == [];
    assert Order([0, 0, 0], true, 1) == [0];
    assert Order([0, 0, 0], true, 2) == [1, 0];
  }

  /** Of two entries left the first is refused and the second accepted; the required one is passed over. */
  lemma SecondOnly(cost: Cost, a: nat, b: nat, c: nat, maxChars: int)
    requires a != b && b != c && a != c
    requires cost({c} + {a}) > maxChars && cost({c} + {b}) <= maxChars
    ensures Picks(cost, [a, b, c], {c}, maxChars, None) == {c} + {b}
  {
    assert [a, b, c][1..] == [b, c] && [b, c][1..] == [c];
    PicksNothing(cost, [c], {c} + {b}, maxChars);
  }

  lemma ChoiceOfThree(pieces: seq<string>, relevance: string -> nat)
    requires Relevances(relevance, pieces) == [0, 0, 0] && |RenderParagraphs(pieces, {0})| <= 10
    requires |RenderParagraphs(pieces, {0, 2})| > 10 && |RenderParagraphs(pieces, {0, 1})| <= 10
    ensures ChoiceAmong(pieces, relevance, {0}, 10, true) == Chosen({0, 1})
  {
    assert |pieces| == |Relevances(relevance, pieces)|;
    LatestFirst();
    assert {0} + {2} == {0, 2} && {0} + {1} == {0, 1};
    SecondOnly(ParagraphCost(pieces), 2, 1, 0, 10);
  }

  lemma SelectionOfThree(text: string, space: set<char>, spans: seq<Span>, pieces: seq<string>, relevance: string -> nat)
    requires |text| > 10 && spans == Entries(text, space) && |spans| == 3 && pieces == Pieces(text, spans)
    requires ChoiceAmong(pieces, relevance, {0}, 10, true) == Chosen({0, 1})
    ensures SelectionOf(text, space, relevance, Indexes({0}), 10, true) == Selected(RenderParagraphs(pieces, {0, 1}), spans, {0, 1})
  {
    assert RequiredIndexes(Indexes({0}), 3) == {0};
  }

  /** Under ten characters, with the first paragraph required and the most recent first, the last paragraph is refused
      beside a gap that the middle one then closes: in the end all three would have fitted. */
  lemma OmittedParagraphWouldFit(space: set<char>, relevance: string -> nat)
    requires VisibleLetters(space) && forall piece :: relevance(piece) == 0
    ensures var spans := Entries(GAPPED, space);
            && SelectionOf(GAPPED, space, relevance, Indexes({0}), 10, true)
               == Selected(RenderParagraphs(Pieces(GAPPED, spans), {0, 1}), spans, {0, 1})
            && |spans| == 3 && |RenderParagraphs(Pieces(GAPPED, spans), {0, 1} + {2})| <= 10
  {
    GappedEntries(space);
    GappedLengths();
    assert Relevances(relevance, GAPPED_PIECES) == [0, 0, 0];
    ChoiceOfThree(GAPPED_PIECES, relevance);
    SelectionOfThree(GAPPED, space, Entries(GAPPED, space), GAPPED_PIECES, relevance);
    assert {0, 1} + {2} == {0, 1, 2};
  }

  // ---------- Texts that are as short as their rendering ----------

  /** Two visible characters, and two newlines behind them unless they are the `n`-th ones. */
  predicate WordAt(text: string, space: set<char>, n: nat, k: nat)
    requires k < n && |text| == 4 * n - 2
  {
    && text[4 * k] !in space && text[4 * k + 1] !in space
    && (k < n - 1 ==> text[4 * k + 2] == '\n' && text[4 * k + 3] == '\n')
  }

  predicate Words(text: string, space: set<char>, n: nat) {
    SpaceLike(space) && n >= 2 && |text| == 4 * n - 2 && forall k: nat | k < n :: WordAt(text, space, n, k)
  }

  function BreakSpan(k: nat): Span {
    Span(4 * k + 2, 4 * k + 4)
  }

  function WordSpan(k: nat): Span {
    Span(4 * k, 4 * k + 2)
  }

  lemma WordBreak(text: string, space: set<char>, n: nat, k: nat)
    requires Words(text, space, n) && k < n - 1
    ensures SeparatorsFrom(text, 4 * k) == [BreakSpan(k)] + SeparatorsFrom(text, 4 * (k + 1))
  {
    var p := 4 * k;
    assert WordAt(text, space, n, k) && WordAt(text, space, n, k + 1);
    NoSeparatorFrom(text, space, p);
    assert SkipNewlines(text, p + 4) == p + 4;
    assert SeparatorEnd(text, p + 2) == Some(p + 4);
  }

  lemma {:induction false} WordBreaks(text: string, space: set<char>, n: nat, k: nat, separators: seq<Span>)
    requires Words(text, space, n) && k <= n - 1 && |separators| == n - 1
    requires forall i: nat | i < n - 1 :: separators[i] == BreakSpan(i)
    ensures SeparatorsFrom(text, 4 * k) == separators[k..]
    decreases n - k
  {
    if k == n - 1 {
      assert WordAt(text, space, n, k);
      NoSeparatorFrom(text, space, 4 * k);
    } else {
      WordBreak(text, space, n, k);
      WordBreaks(text, space, n, k + 1, separators);
      assert separators[k..] == [separators[k]] + separators[k + 1..];
    }
  }

  lemma WordBetween(text: string, space: set<char>, n: nat, m: nat, separators: seq<Span>)
    requires Words(text, space, n) && m < n && |separators| == n - 1
    requires m < n - 1 ==> separators[m] == BreakSpan(m)
    requires m > 0 ==> separators[m - 1] == BreakSpan(m - 1)
    ensures GapSpans(text, space, separators, m + 1) == GapSpans(text, space, separators, m) + [WordSpan(m)]
  {
    assert WordAt(text, space, n, m);
    TwoLetters(text, space, 4 * m);
  }

  lemma {:induction false} OneByOne(built: nat -> seq<Span>, spans: seq<Span>, m: nat)
    requires m <= |spans| && built(0) == [] && forall k: nat | k < |spans| :: built(k + 1) == built(k) + [spans[k]]
    ensures built(m) == spans[..m]
  {
    if m == 0 {
    } else {
      OneByOne(built, spans, m - 1);
      assert built(m - 1 + 1) == built(m - 1) + [spans[m - 1]];
    }
  }

  lemma WordsBetween(text: string, space: set<char>, n: nat, separators: seq<Span>, spans: seq<Span>)
    requires Words(text, space, n) && n == |spans| && |separators| == n - 1
    requires forall i: nat | i < n - 1 :: separators[i] == BreakSpan(i)
    requires forall i: nat | i < n :: spans[i] == WordSpan(i)
    ensures GapSpans(text, space, separators, n) == spans
  {
    var built := (m: nat) => if m <= n then GapSpans(text, space, separators, m) else [];
    forall k: nat | k < n ensures built(k + 1) == built(k) + [spans[k]] {
      WordBetween(text, space, n, k, separators);
    }
    OneByOne(built, spans, n);
    assert spans[..n] == spans;
  }

  /** The words are the paragraphs. */
  lemma WordEntries(text: string, space: set<char>, n: nat)
    requires Words(text, space, n)
    ensures var pieces := PiecesOf(text, space); |pieces| == n && forall k | 0 <= k < n :: |pieces[k]| == 2
  {
    var separators := seq(n - 1, i requires 0 <= i < n - 1 => BreakSpan(i));
    var spans := seq(n, i requires 0 <= i < n => WordSpan(i));
    WordBreaks(text, space, n, 0, separators);
    WordsBetween(text, space, n, separators, spans);
    assert separators[0..] == separators;
  }

  lemma TightWords(space: set<char>)
    requires VisibleLetters(space)
    ensures Words("aa\n\nbb\n\ncc", space, 3) && Words("aa\n\nbb\n\ncc\n\naa", space, 4)
  {
  }

  /** Three words: the text is exactly as long as its full rendering and has a short paragraph inside, and still nothing
      is ever left out that would fit, because every limit below the whole text is too small for all three. */
  lemma ThreeWordsNeverFail(text: string, space: set<char>)
    requires Words(text, space, 3)
    ensures AlwaysMaximal(text, space) && !LongInside(PiecesOf(text, space)) && !Loose(text, space)
  {
    WordEntries(text, space, 3);
    AllThree(PiecesOf(text, space));
    assert |PiecesOf(text, space)[1]| < |MARKER|;
    ThreeAreMaximalExactly(text, space);
  }

  lemma FourParagraphs(texts: seq<string>, chosen: set<nat>)
    requires |texts| == 4 && forall k | 0 <= k < 4 :: |texts[k]| == 2
    ensures |RenderParagraphs(texts, chosen)|
         == (if 0 in chosen then 2 else 0)
            + (if 1 in chosen then Link(Last(chosen, 1), 1) + 2 else 0)
            + (if 2 in chosen then Link(Last(chosen, 2), 2) + 2 else 0)
            + (if 3 in chosen then Link(Last(chosen, 3), 3) + 2 else 0)
  {
    var n := |texts|;
    PartsLength(texts, chosen, n);
    PartsLength(texts, chosen, n - 1);
    PartsLength(texts, chosen, n - 2);
    PartsLength(texts, chosen, n - 3);
  }

  lemma FourLengths(texts: seq<string>)
    requires |texts| == 4 && forall k | 0 <= k < 4 :: |texts[k]| == 2
    ensures |RenderParagraphs(texts, {0})| == 2 && |RenderParagraphs(texts, {0} + {3})| == 19
    ensures |RenderParagraphs(texts, {0} + {2})| == 19 && |RenderParagraphs(texts, {0} + {1})| == 6
    ensures |RenderParagraphs(texts, {0} + {1} + {2})| == 10 && |RenderParagraphs(texts, UpTo(4))| == 14
  {
    assert |MARKER| == 11 && |BREAK| == 2;
    FourParagraphs(texts, {0});
    FourParagraphs(texts, {0} + {3});
    FourParagraphs(texts, {0} + {2});
    FourParagraphs(texts, {0} + {1});
    FourParagraphs(texts, {0} + {1} + {2});
    FourParagraphs(texts, UpTo(4));
  }

  lemma LatestOfFour(none: seq<nat>)
    requires |none| == 4 && forall k | 0 <= k < 4 :: none[k] == 0
    ensures Order(none, true, 4) == [3, 2, 1, 0]
  {
    assert Order(none, true, 0) == [];
    assert Order(none, true, 1) == [0];
    assert Order(none, true, 2) == [1, 0];
    assert Order(none, true, 3) == [2, 1, 0];
  }

  lemma RefusedFirst(cost: Cost, i: nat, rest: seq<nat>, chosen: set<nat>, maxChars: int)
    requires i !in chosen && cost(chosen + {i}) > maxChars
    ensures Picks(cost, [i] + rest, chosen, maxChars, None) == Picks(cost, rest, chosen, maxChars, None)
  {
    assert ([i] + rest)[1..] == rest;
  }

  lemma OnlyTheSecond(cost: Cost, order: seq<nat>)
    requires order == [3, 2, 1, 0] && cost({0} + {3}) > 10 && cost({0} + {2}) > 10 && cost({0} + {1}) <= 10
    ensures Picks(cost, order, {0}, 10, None) == {0} + {1}
  {
    RefusedFirst(cost, 3, [2, 1, 0], {0}, 10);
    SecondOnly(cost, 2, 1, 0, 10);
    assert [3] + [2, 1, 0] == [3, 2, 1, 0];
  }

  lemma ThirdLeftOut(texts: seq<string>, none: seq<nat>)
    requires |texts| == 4 && |none| == 4 && PickedParagraphs(texts, none, true, {0}, 10) == {0} + {1}
    requires |RenderParagraphs(texts, {0} + {1} + {2})| <= 10
    ensures !Maximal(texts, none, true, {0}, 10)
  {
    assert 2 !in {0} + {1};
  }

  /** The last two are refused, the second accepted, and with it the third would fit. */
  lemma FourFail(texts: seq<string>, none: seq<nat>)
    requires |texts| == 4 && forall k | 0 <= k < 4 :: |texts[k]| == 2
    requires |none| == 4 && forall k | 0 <= k < 4 :: none[k] == 0
    ensures !Maximal(texts, none, true, {0}, 10)
  {
    FourLengths(texts);
    LatestOfFour(none);
    OnlyTheSecond(ParagraphCost(texts), Order(none, true, 4));
    ThirdLeftOut(texts, none);
  }

  /** Four words: a limit far below the whole text admits three of them, so being tight is then no help. */
  lemma FourWordsFail(text: string, space: set<char>)
    requires Words(text, space, 4)
    ensures !AlwaysMaximal(text, space) && !Loose(text, space)
  {
    WordEntries(text, space, 4);
    var pieces, none := PiecesOf(text, space), seq(4, _ => 0);
    FourLengths(pieces);
    FourFail(pieces, none);
    EmptyQueryFails(text, space, {0}, 10, pieces, none);
  }
}
