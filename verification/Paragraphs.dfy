/** Splitting a text into paragraphs, or into lines when it has no blank line, and selecting among them. */
module Paragraphs {
  import opened Common
  import opened Selection
  import opened Renderers

  datatype Span = Span(start: nat, end: nat)

  /** Which characters count as white space; line breaks, blanks and tabs always do. */
  predicate SpaceLike(space: set<char>) {
    '\n' in space && '\r' in space && ' ' in space && '\t' in space
  }

  // ---------- Blank lines ----------

  /** Behind `\r?\n` at `p`. */
  function BreakEnd(text: string, p: nat): (end: Option<nat>)
    ensures end.Some? ==> p < end.value <= |text|
  {
    if p < |text| && text[p] == '\n' then Some(p + 1)
    else if p + 1 < |text| && text[p] == '\r' && text[p + 1] == '\n' then Some(p + 2)
    else None
  }

  predicate Breaks(c: char) {
    c == ' ' || c == '\t' || c == '\r' || c == '\n'
  }

  /** Behind the blanks and tabs at `p`. */
  function SkipBlanks(text: string, p: nat): (end: nat)
    requires p <= |text|
    ensures p <= end <= |text|
    decreases |text| - p
  {
    if p < |text| && (text[p] == ' ' || text[p] == '\t') then SkipBlanks(text, p + 1) else p
  }

  function SkipNewlines(text: string, p: nat): (end: nat)
    requires p <= |text|
    ensures p <= end <= |text|
    decreases |text| - p
  {
    if p < |text| && text[p] == '\n' then SkipNewlines(text, p + 1) else p
  }

  /** Behind a separator at `p`: a line break, blanks and tabs, a line break, and every further newline. */
  function SeparatorEnd(text: string, p: nat): (end: Option<nat>)
    ensures end.Some? ==> p < end.value <= |text|
  {
    match BreakEnd(text, p)
    case None => None
    case Some(q) =>
      match BreakEnd(text, SkipBlanks(text, q))
      case None => None
      case Some(r) => Some(SkipNewlines(text, r))
  }

  lemma {:induction false} BlanksBreak(text: string, p: nat)
    requires p <= |text|
    ensures forall k | p <= k < SkipBlanks(text, p) :: Breaks(text[k])
    decreases |text| - p
  {
    if p == |text| || (text[p] != ' ' && text[p] != '\t') {
    } else {
      BlanksBreak(text, p + 1);
    }
  }

  lemma {:induction false} NewlinesBreak(text: string, p: nat)
    requires p <= |text|
    ensures forall k | p <= k < SkipNewlines(text, p) :: Breaks(text[k])
    decreases |text| - p
  {
    if p == |text| || text[p] != '\n' {
    } else {
      NewlinesBreak(text, p + 1);
    }
  }

  /** A separator is all white space. */
  lemma SeparatorBreaks(text: string, p: nat, end: nat)
    requires SeparatorEnd(text, p) == Some(end)
    ensures forall k | p <= k < end :: Breaks(text[k])
  {
    var q := BreakEnd(text, p).value;
    var r := BreakEnd(text, SkipBlanks(text, q)).value;
    BlanksBreak(text, q);
    NewlinesBreak(text, r);
    forall k | p <= k < end ensures Breaks(text[k]) {
    }
  }

  predicate SeparatorAt(text: string, span: Span, limit: nat) {
    span.start < limit && SeparatorEnd(text, span.start) == Some(span.end)
  }

  /** The leftmost separators of the text before `limit`, one after the other; none starts in between. */
  ghost predicate Separators(text: string, found: seq<Span>, limit: nat) {
    && (forall i | 0 <= i < |found| :: SeparatorAt(text, found[i], limit))
    && Apart(found)
    && Found(text, found, limit)
  }

  predicate Inside(spans: seq<Span>, k: int) {
    exists i :: 0 <= i < |spans| && spans[i].start <= k < spans[i].end
  }

  lemma InsideLonger(spans: seq<Span>, span: Span, k: int)
    requires Inside(spans, k) || span.start <= k < span.end
    ensures Inside(spans + [span], k)
  {
    if Inside(spans, k) {
      var i :| 0 <= i < |spans| && spans[i].start <= k < spans[i].end;
      assert (spans + [span])[i] == spans[i];
    } else {
      assert (spans + [span])[|spans|] == span;
    }
  }

  /** Every separator that starts before `limit` lies inside one that was found. */
  ghost predicate Found(text: string, found: seq<Span>, limit: nat) {
    forall p: nat {:trigger Inside(found, p)} | p < limit && SeparatorEnd(text, p).Some? :: Inside(found, p)
  }

  lemma LongerFound(text: string, found: seq<Span>, p: nat, end: nat)
    requires Found(text, found, p)
    ensures Found(text, found + [Span(p, end)], end)
  {
    forall q: nat | q < end && SeparatorEnd(text, q).Some? ensures Inside(found + [Span(p, end)], q) {
      InsideLonger(found, Span(p, end), q);
    }
  }

  lemma LongerSeparators(text: string, found: seq<Span>, p: nat, end: nat)
    requires Separators(text, found, p) && SeparatorAt(text, Span(p, end), end)
    requires forall i | 0 <= i < |found| :: found[i].end <= p
    ensures Separators(text, found + [Span(p, end)], end)
  {
    var longer := found + [Span(p, end)];
    LongerFound(text, found, p, end);
    forall i | 0 <= i < |longer| ensures SeparatorAt(text, longer[i], end) {
      if i < |found| {
        assert SeparatorAt(text, found[i], p);
      }
    }
  }

  lemma NoSeparatorHere(text: string, found: seq<Span>, p: nat)
    requires Separators(text, found, p) && SeparatorEnd(text, p).None?
    ensures Separators(text, found, p + 1)
  {
  }

  /** The separators from `p` on, leftmost first. */
  function SeparatorsFrom(text: string, p: nat): seq<Span>
    requires p <= |text|
    decreases |text| - p
  {
    if p == |text| then []
    else if SeparatorEnd(text, p).Some? then
      [Span(p, SeparatorEnd(text, p).value)] + SeparatorsFrom(text, SeparatorEnd(text, p).value)
    else SeparatorsFrom(text, p + 1)
  }

  /** `found` is all there is to find before `p`. */
  ghost predicate FoundUpTo(text: string, found: seq<Span>, p: nat) {
    p <= |text| && Separators(text, found, p) && forall i | 0 <= i < |found| :: found[i].end <= p
  }

  lemma FindsNext(text: string, found: seq<Span>, p: nat)
    requires FoundUpTo(text, found, p) && p < |text|
    ensures var end := SeparatorEnd(text, p);
            if end.Some? then FoundUpTo(text, found + [Span(p, end.value)], end.value) else FoundUpTo(text, found, p + 1)
  {
    var end := SeparatorEnd(text, p);
    if end.Some? {
      LongerSeparators(text, found, p, end.value);
    } else {
      NoSeparatorHere(text, found, p);
    }
  }

  /** None is missed. */
  lemma {:induction false} SeparatorsComplete(text: string, found: seq<Span>, p: nat)
    requires FoundUpTo(text, found, p)
    ensures FoundUpTo(text, found + SeparatorsFrom(text, p), |text|)
    decreases |text| - p
  {
    if p == |text| {
      assert found + [] == found;
    } else {
      FindsNext(text, found, p);
      var end := SeparatorEnd(text, p);
      if end.Some? {
        SeparatorsComplete(text, found + [Span(p, end.value)], end.value);
        Associates(found, [Span(p, end.value)], SeparatorsFrom(text, end.value));
      } else {
        SeparatorsComplete(text, found, p + 1);
      }
    }
  }

  method FindSeparators(text: string) returns (found: seq<Span>)
    ensures found == SeparatorsFrom(text, 0)
    ensures FoundUpTo(text, found, |text|)
  {
    found := [];
    var p := 0;
    while p < |text|
      invariant p <= |text|
      invariant found + SeparatorsFrom(text, p) == SeparatorsFrom(text, 0)
    {
      var end := SeparatorEnd(text, p);
      if end.Some? {
        found := found + [Span(p, end.value)];
        p := end.value;
      } else {
        p := p + 1;
      }
    }
    AllSeparators(text);
  }

  // ---------- Spans ----------

  predicate Trimmed(text: string, space: set<char>, span: Span, limit: int)
    requires limit <= |text|
  {
    span.start < span.end <= limit && text[span.start] !in space && text[span.end - 1] !in space
  }

  predicate AllTrimmed(text: string, space: set<char>, spans: seq<Span>, limit: int)
    requires limit <= |text|
  {
    forall i | 0 <= i < |spans| :: Trimmed(text, space, spans[i], limit)
  }

  predicate Apart(spans: seq<Span>) {
    forall i, j | 0 <= i < j < |spans| :: spans[i].end <= spans[j].start
  }

  predicate Around(text: string, space: set<char>, spans: seq<Span>, limit: int)
    requires limit <= |text|
  {
    forall k {:trigger Inside(spans, k)} | 0 <= k < limit && text[k] !in space :: Inside(spans, k)
  }

  /** Trimmed, in order, apart, and around every character before `limit` that is not white space. */
  predicate Cut(text: string, space: set<char>, spans: seq<Span>, limit: int) {
    limit <= |text| && AllTrimmed(text, space, spans, limit) && Apart(spans) && Around(text, space, spans, limit)
  }

  function TrimLow(text: string, space: set<char>, start: nat, end: nat): (low: nat)
    requires start <= end <= |text|
    ensures start <= low <= end
    decreases end - start
  {
    if start < end && text[start] in space then TrimLow(text, space, start + 1, end) else start
  }

  function TrimHigh(text: string, space: set<char>, low: nat, end: nat): (high: nat)
    requires low <= end <= |text|
    ensures low <= high <= end
  {
    if end > low && text[end - 1] in space then TrimHigh(text, space, low, end - 1) else end
  }

  lemma {:induction false} TrimmedLow(text: string, space: set<char>, start: nat, end: nat)
    requires start <= end <= |text|
    ensures var low := TrimLow(text, space, start, end);
            (forall k | start <= k < low :: text[k] in space) && (low < end ==> text[low] !in space)
    decreases end - start
  {
    if start == end || text[start] !in space {
    } else {
      TrimmedLow(text, space, start + 1, end);
    }
  }

  lemma {:induction false} TrimmedHigh(text: string, space: set<char>, low: nat, end: nat)
    requires low <= end <= |text|
    ensures var high := TrimHigh(text, space, low, end);
            (forall k | high <= k < end :: text[k] in space) && (low < high ==> text[high - 1] !in space)
  {
    if end == low || text[end - 1] !in space {
    } else {
      TrimmedHigh(text, space, low, end - 1);
    }
  }

  /** A stretch of the text with white space trimmed off both ends, unless it is all white space. */
  function Nonblank(text: string, space: set<char>, start: nat, end: nat): (spans: seq<Span>)
    requires start <= end <= |text|
  {
    var low := TrimLow(text, space, start, end);
    var high := TrimHigh(text, space, low, end);
    if low < high then [Span(low, high)] else []
  }

  lemma AppendAround(text: string, space: set<char>, spans: seq<Span>, start: nat, low: nat, high: nat, end: nat)
    requires start <= low < high <= end <= |text| && Around(text, space, spans, start)
    requires forall k | start <= k < low || high <= k < end :: text[k] in space
    ensures Around(text, space, spans + [Span(low, high)], end)
  {
    forall k | 0 <= k < end && text[k] !in space ensures Inside(spans + [Span(low, high)], k) {
      InsideLonger(spans, Span(low, high), k);
    }
  }

  lemma AppendTrimmed(text: string, space: set<char>, spans: seq<Span>, start: nat, span: Span, end: nat)
    requires start <= end <= |text| && AllTrimmed(text, space, spans, start) && Trimmed(text, space, span, end)
    ensures AllTrimmed(text, space, spans + [span], end)
  {
    forall i | 0 <= i < |spans + [span]| ensures Trimmed(text, space, (spans + [span])[i], end) {
      if i < |spans| {
        assert Trimmed(text, space, spans[i], start);
      }
    }
  }

  lemma AppendApart(text: string, space: set<char>, spans: seq<Span>, start: nat, span: Span)
    requires start <= |text| && AllTrimmed(text, space, spans, start) && Apart(spans) && start <= span.start
    ensures Apart(spans + [span])
  {
    var longer := spans + [span];
    forall i, j | 0 <= i < j < |longer| ensures longer[i].end <= longer[j].start {
      assert Trimmed(text, space, spans[i], start);
    }
  }

  lemma AppendCut(text: string, space: set<char>, spans: seq<Span>, start: nat, low: nat, high: nat, end: nat)
    requires start <= low < high <= end <= |text| && Cut(text, space, spans, start)
    requires forall k | start <= k < low || high <= k < end :: text[k] in space
    requires text[low] !in space && text[high - 1] !in space
    ensures Cut(text, space, spans + [Span(low, high)], end)
  {
    AppendAround(text, space, spans, start, low, high, end);
    AppendTrimmed(text, space, spans, start, Span(low, high), end);
    AppendApart(text, space, spans, start, Span(low, high));
  }

  lemma NonblankCut(text: string, space: set<char>, spans: seq<Span>, start: nat, end: nat)
    requires start <= end <= |text| && Cut(text, space, spans, start)
    ensures Cut(text, space, spans + Nonblank(text, space, start, end), end)
  {
    var low := TrimLow(text, space, start, end);
    var high := TrimHigh(text, space, low, end);
    TrimmedLow(text, space, start, end);
    TrimmedHigh(text, space, low, end);
    if low < high {
      AppendCut(text, space, spans, start, low, high, end);
    } else {
      SkipSpace(text, space, spans, start, end);
      assert spans + [] == spans;
    }
  }

  method AppendNonblankSpan(text: string, space: set<char>, spans: seq<Span>, start: nat, end: nat)
      returns (longer: seq<Span>)
    requires start <= end <= |text|
    ensures longer == spans + Nonblank(text, space, start, end)
    ensures Cut(text, space, spans, start) ==> Cut(text, space, longer, end)
  {
    var low, high := start, end;
    while low < high && text[low] in space
      invariant start <= low <= high == end && TrimLow(text, space, low, end) == TrimLow(text, space, start, end)
    {
      low := low + 1;
    }
    while high > low && text[high - 1] in space
      invariant low <= high <= end && low == TrimLow(text, space, start, end)
      invariant TrimHigh(text, space, low, high) == TrimHigh(text, space, low, end)
    {
      high := high - 1;
    }
    longer := if low < high then spans + [Span(low, high)] else spans;
    if Cut(text, space, spans, start) {
      NonblankCut(text, space, spans, start, end);
    }
  }

  /** White space alone after `start` extends a cut without a new span. */
  lemma SkipSpace(text: string, space: set<char>, spans: seq<Span>, start: int, end: int)
    requires 0 <= start <= end <= |text| && Cut(text, space, spans, start)
    requires forall k | start <= k < end :: text[k] in space
    ensures Cut(text, space, spans, end)
  {
  }

  /** No blank line starts inside a span that ends before `limit`. */
  ghost predicate Unbroken(text: string, spans: seq<Span>) {
    forall i, k: nat | 0 <= i < |spans| && spans[i].start <= k < spans[i].end :: SeparatorEnd(text, k).None?
  }

  lemma NonblankUnbroken(text: string, space: set<char>, spans: seq<Span>, start: nat, end: nat)
    requires Unbroken(text, spans) && start <= end <= |text|
    requires forall k: nat | start <= k < end :: SeparatorEnd(text, k).None?
    ensures Unbroken(text, spans + Nonblank(text, space, start, end))
  {
  }

  /** An exact splitting of the text before `limit`. */
  ghost predicate Split(text: string, space: set<char>, spans: seq<Span>, limit: int) {
    Cut(text, space, spans, limit) && Unbroken(text, spans)
  }

  lemma NonblankSplit(text: string, space: set<char>, spans: seq<Span>, start: nat, end: nat)
    requires start <= end <= |text| && Split(text, space, spans, start)
    requires forall k: nat | start <= k < end :: SeparatorEnd(text, k).None?
    ensures Split(text, space, spans + Nonblank(text, space, start, end), end)
  {
    NonblankCut(text, space, spans, start, end);
    NonblankUnbroken(text, space, spans, start, end);
  }

  lemma SkipSeparator(text: string, space: set<char>, spans: seq<Span>, start: nat, end: nat)
    requires SpaceLike(space) && SeparatorEnd(text, start) == Some(end) && end <= |text| && Split(text, space, spans, start)
    ensures Split(text, space, spans, end)
  {
    SeparatorBreaks(text, start, end);
    SkipSpace(text, space, spans, start, end);
  }

  function GapStart(separators: seq<Span>, n: nat): nat
    requires n <= |separators|
  {
    if n == 0 then 0 else separators[n - 1].end
  }

  function GapEnd(text: string, separators: seq<Span>, n: nat): nat
    requires n <= |separators|
  {
    if n < |separators| then separators[n].start else |text|
  }

  /** How far the first `n` gaps and the separators behind them reach. */
  function GapEdge(text: string, separators: seq<Span>, n: nat): nat
    requires n <= |separators| + 1
  {
    if n <= |separators| then GapStart(separators, n) else |text|
  }

  /** The stretch between two neighbouring separators holds none, and one stands behind it. */
  ghost predicate GapOk(text: string, separators: seq<Span>, n: nat)
    requires n <= |separators|
  {
    var start, end := GapStart(separators, n), GapEnd(text, separators, n);
    && start <= end <= |text| && (forall k: nat | start <= k < end :: SeparatorEnd(text, k).None?)
    && (n < |separators| ==> SeparatorEnd(text, end) == Some(GapStart(separators, n + 1)))
  }

  lemma Gap(text: string, separators: seq<Span>, n: nat)
    requires FoundUpTo(text, separators, |text|) && n <= |separators|
    ensures GapOk(text, separators, n)
  {
    NoneBetween(text, separators, n);
  }

  /** The pieces before the first `n` separators; the last piece is the one behind all of them. */
  function GapSpans(text: string, space: set<char>, separators: seq<Span>, n: nat): seq<Span>
    requires n <= |separators| + 1
  {
    if n == 0 then []
    else
      var start, end := GapStart(separators, n - 1), GapEnd(text, separators, n - 1);
      GapSpans(text, space, separators, n - 1) + if start <= end <= |text| then Nonblank(text, space, start, end) else []
  }

  lemma NothingSplit(text: string, space: set<char>)
    ensures Split(text, space, [], 0)
  {
  }

  /** One more gap, and the separator behind it. */
  lemma OneMoreGap(text: string, space: set<char>, separators: seq<Span>, n: nat)
    requires SpaceLike(space) && n <= |separators| && GapOk(text, separators, n)
    requires Split(text, space, GapSpans(text, space, separators, n), GapEdge(text, separators, n))
    ensures Split(text, space, GapSpans(text, space, separators, n + 1), GapEdge(text, separators, n + 1))
  {
    var spans, start, end := GapSpans(text, space, separators, n), GapStart(separators, n), GapEnd(text, separators, n);
    NonblankSplit(text, space, spans, start, end);
    if n < |separators| {
      SkipSeparator(text, space, spans + Nonblank(text, space, start, end), end, GapStart(separators, n + 1));
    }
  }

  /** Gap by gap. */
  lemma {:induction false} GapAfterGap(holds: nat -> bool, n: nat)
    requires holds(0) && forall k: nat | k < n && holds(k) :: holds(k + 1)
    ensures holds(n)
  {
    if n == 0 {
    } else {
      GapAfterGap(holds, n - 1);
    }
  }

  lemma GapSpansSplit(text: string, space: set<char>, separators: seq<Span>)
    requires SpaceLike(space) && forall n: nat | n <= |separators| :: GapOk(text, separators, n)
    ensures Split(text, space, GapSpans(text, space, separators, |separators| + 1), |text|)
  {
    var count := |separators| + 1;
    var holds := (n: nat) =>
      n <= count && Split(text, space, GapSpans(text, space, separators, n), GapEdge(text, separators, n));
    NothingSplit(text, space);
    forall n: nat | n < count && holds(n) ensures holds(n + 1) {
      OneMoreGap(text, space, separators, n);
    }
    GapAfterGap(holds, count);
  }

  method ParagraphSpans(text: string, space: set<char>, separators: seq<Span>) returns (spans: seq<Span>)
    requires FoundUpTo(text, separators, |text|)
    ensures spans == GapSpans(text, space, separators, |separators| + 1)
  {
    spans := [];
    var start := 0;
    for n := 0 to |separators|
      invariant start == GapStart(separators, n) && spans == GapSpans(text, space, separators, n)
    {
      Gap(text, separators, n);
      spans := AppendNonblankSpan(text, space, spans, start, separators[n].start);
      start := separators[n].end;
    }
    Gap(text, separators, |separators|);
    spans := AppendNonblankSpan(text, space, spans, start, |text|);
  }

  lemma NotInside(spans: seq<Span>, n: nat, low: nat, high: nat, k: nat)
    requires n <= |spans| && low <= k < high
    requires Apart(spans) && forall i | 0 <= i < |spans| :: spans[i].start < spans[i].end
    requires n > 0 ==> spans[n - 1].end == low
    requires n < |spans| ==> spans[n].start == high
    ensures !Inside(spans, k)
  {
    forall i | 0 <= i < |spans| ensures !(spans[i].start <= k < spans[i].end) {
      if i < n - 1 {
        assert spans[i].end <= spans[n - 1].start;
      } else if i > n {
        assert spans[n].end <= spans[i].start;
      }
    }
  }

  /** No separator starts between the end of one and the start of the next. */
  lemma NoneBetween(text: string, separators: seq<Span>, n: nat)
    requires Separators(text, separators, |text|) && n <= |separators|
    ensures var low := if n == 0 then 0 else separators[n - 1].end;
            var high := if n < |separators| then separators[n].start else |text|;
            forall k: nat | low <= k < high :: SeparatorEnd(text, k).None?
  {
    var low := if n == 0 then 0 else separators[n - 1].end;
    var high := if n < |separators| then separators[n].start else |text|;
    forall k: nat | low <= k < high ensures SeparatorEnd(text, k).None? {
      if SeparatorEnd(text, k).Some? {
        assert Inside(separators, k);
        NotInside(separators, n, low, high, k);
        assert false;
      }
    }
  }

  function LineEnd(text: string, p: nat): (end: nat)
    requires p <= |text|
    ensures p <= end <= |text|
    decreases |text| - p
  {
    if p < |text| && text[p] != '\r' && text[p] != '\n' then LineEnd(text, p + 1) else p
  }

  /** The lines from `p` on. */
  function LinesFrom(text: string, space: set<char>, p: nat): seq<Span>
    requires p <= |text|
    decreases |text| - p
  {
    if p == |text| then []
    else if LineEnd(text, p) == p then LinesFrom(text, space, p + 1)
    else Nonblank(text, space, p, LineEnd(text, p)) + LinesFrom(text, space, LineEnd(text, p))
  }

  lemma SkipLineBreak(text: string, space: set<char>, spans: seq<Span>, p: nat)
    requires SpaceLike(space) && p < |text| && Split(text, space, spans, p) && LineEnd(text, p) == p
    ensures Split(text, space, spans, p + 1)
  {
    SkipSpace(text, space, spans, p, p + 1);
  }

  /** No blank line anywhere. */
  ghost predicate NoBlankLine(text: string) {
    forall k: nat | k < |text| :: SeparatorEnd(text, k).None?
  }

  lemma LineSplit(text: string, space: set<char>, spans: seq<Span>, p: nat, end: nat)
    requires p <= end <= |text| && Split(text, space, spans, p) && NoBlankLine(text)
    ensures Split(text, space, spans + Nonblank(text, space, p, end), end)
  {
    NonblankSplit(text, space, spans, p, end);
  }

  lemma {:induction false} LinesSplit(text: string, space: set<char>, spans: seq<Span>, p: nat)
    requires SpaceLike(space) && p <= |text| && Split(text, space, spans, p) && NoBlankLine(text)
    ensures Split(text, space, spans + LinesFrom(text, space, p), |text|)
    decreases |text| - p, 1
  {
    if p == |text| {
      assert spans + [] == spans;
    } else if LineEnd(text, p) == p {
      SkipLineBreak(text, space, spans, p);
      LinesSplit(text, space, spans, p + 1);
    } else {
      LineAndRestSplit(text, space, spans, p, LineEnd(text, p));
    }
  }

  lemma {:induction false} LineAndRestSplit(text: string, space: set<char>, spans: seq<Span>, p: nat, end: nat)
    requires SpaceLike(space) && p < end <= |text| && Split(text, space, spans, p) && NoBlankLine(text)
    ensures Split(text, space, spans + (Nonblank(text, space, p, end) + LinesFrom(text, space, end)), |text|)
    decreases |text| - p, 0
  {
    LineSplit(text, space, spans, p, end);
    LinesSplit(text, space, spans + Nonblank(text, space, p, end), end);
    Associates(spans, Nonblank(text, space, p, end), LinesFrom(text, space, end));
  }

  lemma Associates<T>(a: seq<T>, b: seq<T>, c: seq<T>)
    ensures a + b + c == a + (b + c)
  {
  }

  method LineSpans(text: string, space: set<char>) returns (spans: seq<Span>)
    ensures spans == LinesFrom(text, space, 0)
  {
    spans := [];
    var p := 0;
    while p < |text|
      invariant p <= |text| && spans + LinesFrom(text, space, p) == LinesFrom(text, space, 0)
    {
      if text[p] == '\r' || text[p] == '\n' {
        p := p + 1;
      } else {
        var end := p;
        while end < |text| && text[end] != '\r' && text[end] != '\n'
          invariant p <= end <= |text| && LineEnd(text, end) == LineEnd(text, p)
        {
          end := end + 1;
        }
        spans := AppendNonblankSpan(text, space, spans, p, end);
        p := end;
      }
    }
  }

  /** The paragraphs of a text: between its blank lines, or its lines when there is no blank line. */
  function Entries(text: string, space: set<char>): seq<Span> {
    var separators := SeparatorsFrom(text, 0);
    if separators != [] then GapSpans(text, space, separators, |separators| + 1) else LinesFrom(text, space, 0)
  }

  /** Exact pieces of the text, in order and apart, around everything but white space, none of them crossing a blank
      line. */
  lemma EntriesSplit(text: string, space: set<char>)
    requires SpaceLike(space)
    ensures Split(text, space, Entries(text, space), |text|)
  {
    var separators := SeparatorsFrom(text, 0);
    AllSeparators(text);
    if separators != [] {
      forall n: nat | n <= |separators| ensures GapOk(text, separators, n) {
        Gap(text, separators, n);
      }
      GapSpansSplit(text, space, separators);
    } else {
      NoSeparators(text);
      LinesSplit(text, space, [], 0);
      assert [] + LinesFrom(text, space, 0) == LinesFrom(text, space, 0);
    }
  }

  lemma AllSeparators(text: string)
    ensures FoundUpTo(text, SeparatorsFrom(text, 0), |text|)
  {
    SeparatorsComplete(text, [], 0);
    assert [] + SeparatorsFrom(text, 0) == SeparatorsFrom(text, 0);
  }

  lemma NoSeparators(text: string)
    requires FoundUpTo(text, [], |text|)
    ensures NoBlankLine(text)
  {
    forall k: nat | k < |text| ensures SeparatorEnd(text, k).None? {
      assert !Inside([], k);
    }
  }

  method ParagraphEntries(text: string, space: set<char>) returns (spans: seq<Span>)
    requires SpaceLike(space)
    ensures spans == Entries(text, space) && Split(text, space, spans, |text|)
  {
    EntriesSplit(text, space);
    var separators := FindSeparators(text);
    if separators != [] {
      spans := ParagraphSpans(text, space, separators);
    } else {
      spans := LineSpans(text, space);
    }
  }

  // ---------- Selecting paragraphs ----------

  datatype Required = All | Edges | Tail | Indexes(indexes: set<int>)

  function RequiredIndexes(required: Required, count: nat): set<nat> {
    match required
    case All => UpTo(count)
    case Edges => if count == 0 then {} else {0, count - 1}
    case Tail => if count == 0 then {} else {count - 1}
    case Indexes(indexes) => set i: nat | i < count && i in indexes
  }

  function Piece(text: string, span: Span): string {
    if span.start <= span.end <= |text| then text[span.start..span.end] else ""
  }

  function Pieces(text: string, spans: seq<Span>): seq<string> {
    seq(|spans|, i requires 0 <= i < |spans| => Piece(text, spans[i]))
  }

  lemma NoSpansAllSpace(text: string, space: set<char>)
    requires Split(text, space, [], |text|)
    ensures forall k | 0 <= k < |text| :: text[k] in space
  {
    forall k | 0 <= k < |text| ensures text[k] in space {
      assert !Inside([], k);
    }
  }

  datatype TextSelection =
    | WholeText
    | Selected(text: string, spans: seq<Span>, chosen: set<nat>)
    | NothingToSelect
    | RequiredExceed(spans: seq<Span>)

  /** The query's terms matched by each paragraph. */
  function Relevances(relevance: string -> nat, pieces: seq<string>): seq<nat> {
    seq(|pieces|, i requires 0 <= i < |pieces| => relevance(pieces[i]))
  }

  function ChoiceAmong(pieces: seq<string>, relevance: string -> nat, kept: set<nat>, maxChars: int, preferRecent: bool)
    : Chosen
  {
    Choose(ParagraphCost(pieces), kept, Order(Relevances(relevance, pieces), preferRecent, |pieces|), maxChars, None)
  }

  /** What is selected from a text. */
  function SelectionOf(text: string, space: set<char>, relevance: string -> nat, required: Required, maxChars: int,
                     preferRecent: bool): TextSelection
  {
    if |text| <= maxChars then WholeText
    else SelectionAmong(text, Entries(text, space), relevance, required, maxChars, preferRecent)
  }

  function SelectionAmong(text: string, spans: seq<Span>, relevance: string -> nat, required: Required, maxChars: int,
                          preferRecent: bool): TextSelection
  {
    if spans == [] then NothingToSelect
    else
      match ChoiceAmong(Pieces(text, spans), relevance, RequiredIndexes(required, |spans|), maxChars, preferRecent)
      case Chosen(indexes) => Selected(RenderParagraphs(Pieces(text, spans), indexes), spans, indexes)
      case _ => RequiredExceed(spans)
  }

  lemma RequiredBelow(required: Required, count: nat)
    ensures AllBelow(RequiredIndexes(required, count), count)
  {
  }

  lemma ChoiceFits(pieces: seq<string>, relevance: string -> nat, kept: set<nat>, maxChars: int, preferRecent: bool)
    requires AllBelow(kept, |pieces|)
    ensures var choice := ChoiceAmong(pieces, relevance, kept, maxChars, preferRecent);
            && (choice.Chosen? <==> |RenderParagraphs(pieces, kept)| <= maxChars)
            && (choice.Chosen? ==>
                  && kept <= choice.indexes && AllBelow(choice.indexes, |pieces|)
                  && |RenderParagraphs(pieces, choice.indexes)| <= maxChars
                  && (ShortOnesCrowded(pieces, maxChars) ==> NothingLeftFits(pieces, choice.indexes, maxChars)))
  {
    if |RenderParagraphs(pieces, kept)| <= maxChars {
      var scores := Relevances(relevance, pieces);
      PicksFit(ParagraphCost(pieces), Order(scores, preferRecent, |pieces|), kept, maxChars, None);
      if ShortOnesCrowded(pieces, maxChars) {
        CrowdedIsMaximal(pieces, scores, preferRecent, kept, maxChars);
      }
    }
  }

  method ChooseParagraphs(pieces: seq<string>, relevance: string -> nat, kept: set<nat>, maxChars: int, preferRecent: bool)
      returns (result: Chosen)
    ensures result == ChoiceAmong(pieces, relevance, kept, maxChars, preferRecent)
  {
    var scores := Relevances(relevance, pieces);
    var order := Order(scores, preferRecent, |scores|);
    OrderIsRanking(scores, preferRecent, |scores|);
    result := ChooseIndexes(ParagraphCost(pieces), kept, order, maxChars, None);
  }

  /** The text whole when it is short enough; else its paragraphs, cut exactly, the required ones kept; or the required
      ones alone are too long. Unless a short paragraph inside fits together with its neighbours, nothing left out would
      fit. */
  predicate SelectedWell(text: string, required: Required, maxChars: int, selection: TextSelection)
    requires selection.Selected?
  {
    var pieces := Pieces(text, selection.spans);
    && selection.text == RenderParagraphs(pieces, selection.chosen) && |selection.text| <= maxChars
    && RequiredIndexes(required, |pieces|) <= selection.chosen && AllBelow(selection.chosen, |pieces|)
    && (ShortOnesCrowded(pieces, maxChars) ==> NothingLeftFits(pieces, selection.chosen, maxChars))
  }

  lemma AmongSound(text: string, spans: seq<Span>, relevance: string -> nat, required: Required, maxChars: int,
                   preferRecent: bool)
    requires spans != []
    ensures var selection := SelectionAmong(text, spans, relevance, required, maxChars, preferRecent);
            && (selection.Selected? ==> selection.spans == spans && SelectedWell(text, required, maxChars, selection))
            && (!selection.Selected? ==>
                  && selection == RequiredExceed(spans)
                  && |RenderParagraphs(Pieces(text, spans), RequiredIndexes(required, |spans|))| > maxChars)
  {
    RequiredBelow(required, |spans|);
    ChoiceFits(Pieces(text, spans), relevance, RequiredIndexes(required, |spans|), maxChars, preferRecent);
  }

  lemma SelectionSound(text: string, space: set<char>, relevance: string -> nat, required: Required, maxChars: int,
                       preferRecent: bool)
    requires SpaceLike(space)
    ensures var selection := SelectionOf(text, space, relevance, required, maxChars, preferRecent);
            var spans := Entries(text, space);
            && (selection.NothingToSelect? ==> forall k | 0 <= k < |text| :: text[k] in space)
            && (selection.Selected? ==> selection.spans == spans && SelectedWell(text, required, maxChars, selection))
            && (selection.RequiredExceed? ==>
                  && selection.spans == spans
                  && |RenderParagraphs(Pieces(text, spans), RequiredIndexes(required, |spans|))| > maxChars)
  {
    var spans := Entries(text, space);
    if spans == [] {
      EntriesSplit(text, space);
      NoSpansAllSpace(text, space);
    } else {
      AmongSound(text, spans, relevance, required, maxChars, preferRecent);
    }
  }

  /** A paragraph that must be kept. */
  predicate Kept(required: Required, count: nat, i: nat) {
    && i < count
    && match required
       case All => true
       case Edges => i == 0 || i == count - 1
       case Tail => i == count - 1
       case Indexes(indexes) => i in indexes
  }

  /** The paragraphs that must be kept are in, and every other one exactly when the text that shows it fitted at its turn. */
  ghost predicate ParagraphsByTurn(pieces: seq<string>, relevance: string -> nat, preferRecent: bool, required: Required,
                                   chosen: set<nat>, maxChars: int)
  {
    forall i: nat | i < |pieces| ::
      i in chosen <==> Kept(required, |pieces|, i) || ParagraphFits(pieces, relevance, preferRecent, required, chosen, i, maxChars)
  }

  /** It fits with all that must be kept and all that was chosen before. */
  predicate ParagraphFits(pieces: seq<string>, relevance: string -> nat, preferRecent: bool, required: Required,
                          chosen: set<nat>, i: nat, maxChars: int)
    requires i < |pieces|
  {
    var terms := seq(|pieces|, k requires 0 <= k < |pieces| => relevance(pieces[k]));
    var there := set k | k in chosen && k < |pieces| && (Kept(required, |pieces|, k) || TurnsBefore(terms, preferRecent, k, i));
    |RenderParagraphs(pieces, there + {i})| <= maxChars
  }

  lemma KeptIsRequired(required: Required, count: nat, i: nat)
    ensures i in RequiredIndexes(required, count) <==> Kept(required, count, i)
  {
  }

  lemma FitsAtTurn(pieces: seq<string>, relevance: string -> nat, preferRecent: bool, required: Required, chosen: set<nat>,
                   i: nat, maxChars: int)
    requires i < |pieces| && AllBelow(chosen, |pieces|)
    ensures var there := AtTurn(RequiredIndexes(required, |pieces|), Relevances(relevance, pieces), preferRecent, chosen, i);
            ParagraphFits(pieces, relevance, preferRecent, required, chosen, i, maxChars)
            <==> |RenderParagraphs(pieces, there + {i})| <= maxChars
  {
    var terms := seq(|pieces|, k requires 0 <= k < |pieces| => relevance(pieces[k]));
    assert terms == Relevances(relevance, pieces);
    forall k: nat ensures k in RequiredIndexes(required, |pieces|) <==> Kept(required, |pieces|, k) {
      KeptIsRequired(required, |pieces|, k);
    }
    assert AtTurn(RequiredIndexes(required, |pieces|), terms, preferRecent, chosen, i)
        == set k | k in chosen && k < |pieces| && (Kept(required, |pieces|, k) || TurnsBefore(terms, preferRecent, k, i));
  }

  /** The computed choice of paragraphs is of this kind. */
  lemma ChosenByRelevance(pieces: seq<string>, relevance: string -> nat, preferRecent: bool, required: Required, maxChars: int)
    ensures var choice := ChoiceAmong(pieces, relevance, RequiredIndexes(required, |pieces|), maxChars, preferRecent);
            choice.Chosen? ==> ParagraphsByTurn(pieces, relevance, preferRecent, required, choice.indexes, maxChars)
  {
    var kept, scores := RequiredIndexes(required, |pieces|), Relevances(relevance, pieces);
    var choice := ChoiceAmong(pieces, relevance, kept, maxChars, preferRecent);
    if choice.Chosen? {
      ChosenByTurn(ParagraphCost(pieces), kept, scores, preferRecent, maxChars, None);
      RequiredBelow(required, |pieces|);
      forall i: nat | i < |pieces|
        ensures i in choice.indexes
                <==> Kept(required, |pieces|, i) || ParagraphFits(pieces, relevance, preferRecent, required, choice.indexes, i, maxChars)
      {
        KeptIsRequired(required, |pieces|, i);
        FitsAtTurn(pieces, relevance, preferRecent, required, choice.indexes, i, maxChars);
      }
    }
  }

  /** `relevance` gives, for each paragraph, the number of query terms it matches. */
  method SelectTextBlocks(text: string, space: set<char>, relevance: string -> nat, required: Required, maxChars: int,
                          preferRecent: bool) returns (selection: TextSelection)
    requires SpaceLike(space)
    ensures selection == SelectionOf(text, space, relevance, required, maxChars, preferRecent)
    ensures selection.WholeText? <==> |text| <= maxChars
    ensures selection.NothingToSelect? ==> forall k | 0 <= k < |text| :: text[k] in space
    ensures selection.Selected? ==>
              && Split(text, space, selection.spans, |text|) && SelectedWell(text, required, maxChars, selection)
              && ParagraphsByTurn(Pieces(text, selection.spans), relevance, preferRecent, required, selection.chosen, maxChars)
    ensures selection.RequiredExceed? ==>
              && Split(text, space, selection.spans, |text|)
              && |RenderParagraphs(Pieces(text, selection.spans), RequiredIndexes(required, |selection.spans|))| > maxChars
  {
    SelectionSound(text, space, relevance, required, maxChars, preferRecent);
    if |text| <= maxChars {
      return WholeText;
    }
    var spans := ParagraphEntries(text, space);
    if spans == [] {
      return NothingToSelect;
    }
    var pieces := Pieces(text, spans);
    var result := ChooseParagraphs(pieces, relevance, RequiredIndexes(required, |spans|), maxChars, preferRecent);
    ChosenByRelevance(pieces, relevance, preferRecent, required, maxChars);
    if !result.Chosen? {
      return RequiredExceed(spans);
    }
    return Selected(RenderParagraphs(pieces, result.indexes), spans, result.indexes);
  }
}
