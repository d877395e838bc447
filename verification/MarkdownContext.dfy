/** Fitting whole Markdown sections and a manifest into a budget by shrinking the required ones. */
module MarkdownContext {
  import opened Common
  import opened Selection
  import opened Paragraphs
  import opened Renderers
  import opened MarkdownSections

  /** `manifest` describes a selection of the sections as they then stand. */
  datatype Context = Context(rules: Rules, sources: seq<Source>, manifest: (seq<Section>, set<nat>) -> string) {
    const space := rules.space
  }

  // ---------- Rendering ----------

  function TextsOf(sections: seq<Section>): seq<string> {
    seq(|sections|, i requires 0 <= i < |sections| => sections[i].text)
  }

  function Body(c: Context, sections: seq<Section>, chosen: set<nat>): string {
    Strip(Join(BREAK, Texts(TextsOf(sections), chosen, |sections|)), c.space)
  }

  function Render(c: Context, sections: seq<Section>, chosen: set<nat>): string {
    var body := Body(c, sections, chosen);
    if body == "" then c.manifest(sections, chosen) else body + BREAK + c.manifest(sections, chosen)
  }

  ghost predicate Contains(text: string, part: string) {
    exists before: string, after: string :: text == before + part + after
  }

  lemma ContainsAround(text: string, part: string, left: string, right: string)
    requires Contains(text, part)
    ensures Contains(left + text + right, part)
  {
    var before: string, after: string :| text == before + part + after;
    assert left + text + right == (left + before) + part + (after + right);
  }

  lemma {:induction false} StripLeftContains(text: string, part: string, space: set<char>)
    requires Contains(text, part) && part != "" && part[0] !in space
    ensures Contains(StripLeft(text, space), part)
  {
    if text == "" || text[0] !in space {
    } else {
      var before: string, after: string :| text == before + part + after;
      assert (part + after)[0] == part[0];
      assert "" + part + after == part + after;
      assert before != "";
      assert text[1..] == before[1..] + part + after;
      StripLeftContains(text[1..], part, space);
    }
  }

  lemma {:induction false} StripRightContains(text: string, part: string, space: set<char>)
    requires Contains(text, part) && part != "" && part[|part| - 1] !in space
    ensures Contains(StripRight(text, space), part)
  {
    if text == "" || text[|text| - 1] !in space {
    } else {
      var before: string, after: string :| text == before + part + after;
      assert (before + part)[|before + part| - 1] == part[|part| - 1];
      assert before + part + "" == before + part;
      assert after != "";
      assert text[..|text| - 1] == before + part + after[..|after| - 1];
      StripRightContains(text[..|text| - 1], part, space);
    }
  }

  lemma OneMoreJoined(texts: seq<string>, chosen: set<nat>, n: nat, before: seq<string>, after: seq<string>)
    requires n < |texts| && before == Texts(texts, chosen, n) && after == Texts(texts, chosen, n + 1)
    ensures n !in chosen ==> after == before
    ensures n in chosen ==>
              && after != []
              && Join(BREAK, after) == if before == [] then texts[n] else Join(BREAK, before) + BREAK + texts[n]
  {
    JoinOne(BREAK, before, texts[n]);
    assert before + [] == before;
  }

  lemma AppendedHolds(left: string, part: string, right: string, more: string)
    ensures (left + part + right) + more == left + part + (right + more)
  {
  }

  /** What is joined before and after a chosen text. */
  lemma {:induction false} JoinHolds(texts: seq<string>, chosen: set<nat>, n: nat, i: nat, joined: string)
      returns (left: string, right: string)
    requires i < n <= |texts| && i in chosen && joined == Join(BREAK, Texts(texts, chosen, n))
    ensures joined == left + texts[i] + right
  {
    var before := Texts(texts, chosen, n - 1);
    OneMoreJoined(texts, chosen, n - 1, before, Texts(texts, chosen, n));
    if i == n - 1 {
      left, right := if before == [] then "" else Join(BREAK, before) + BREAK, "";
    } else {
      left, right := JoinHolds(texts, chosen, n - 1, i, Join(BREAK, before));
      if n - 1 in chosen {
        TextsNonEmpty(texts, chosen, n - 1, i);
        AppendedHolds(left, texts[i], right, BREAK + texts[n - 1]);
        right := right + (BREAK + texts[n - 1]);
      }
    }
  }

  lemma {:induction false} TextsNonEmpty(texts: seq<string>, chosen: set<nat>, n: nat, i: nat)
    requires i < n <= |texts| && i in chosen
    ensures Texts(texts, chosen, n) != []
  {
    if i == n - 1 {
    } else {
      TextsNonEmpty(texts, chosen, n - 1, i);
    }
  }

  /** Every chosen section that starts and ends with something visible is in the rendering, whole. */
  lemma ChosenSectionsPresent(c: Context, sections: seq<Section>, chosen: set<nat>, i: nat)
    requires i < |sections| && i in chosen && VisibleEnds(sections[i].text, c.space)
    ensures Contains(Render(c, sections, chosen), sections[i].text)
  {
    var joined := Join(BREAK, Texts(TextsOf(sections), chosen, |sections|));
    var left, right := JoinHolds(TextsOf(sections), chosen, |sections|, i, joined);
    StripLeftContains(joined, sections[i].text, c.space);
    StripRightContains(StripLeft(joined, c.space), sections[i].text, c.space);
    var body := Body(c, sections, chosen);
    var before: string, after: string :| body == before + sections[i].text + after;
    assert body != "";
    ContainsAround(body, sections[i].text, "", BREAK + c.manifest(sections, chosen));
    assert "" + body + (BREAK + c.manifest(sections, chosen)) == Render(c, sections, chosen);
  }

  lemma StripNothing(text: string, space: set<char>)
    requires text != "" ==> VisibleEnds(text, space)
    ensures Strip(text, space) == text
  {
  }

  lemma AppendedEnds(front: string, part: string, space: set<char>)
    requires VisibleEnds(part, space) && (front != "" ==> VisibleEnds(front, space))
    ensures VisibleEnds(front + part, space)
    ensures front != "" ==> VisibleEnds(front + BREAK + part, space)
  {
    assert front != "" ==> (front + BREAK + part)[0] == front[0];
    assert front != "" ==> (front + BREAK + part)[|front| + |BREAK| + |part| - 1] == part[|part| - 1];
  }

  /** Texts with visible ends, joined, have visible ends. */
  lemma {:induction false} JoinedEnds(texts: seq<string>, chosen: set<nat>, n: nat, space: set<char>)
    requires n <= |texts| && forall i | i in chosen && i < n :: VisibleEnds(texts[i], space)
    ensures var joined := Join(BREAK, Texts(texts, chosen, n));
            if Texts(texts, chosen, n) == [] then joined == "" else VisibleEnds(joined, space)
  {
    if n == 0 {
    } else {
      var before := Texts(texts, chosen, n - 1);
      JoinedEnds(texts, chosen, n - 1, space);
      OneMoreJoined(texts, chosen, n - 1, before, Texts(texts, chosen, n));
      if n - 1 in chosen {
        AppendedEnds(Join(BREAK, before), texts[n - 1], space);
      }
    }
  }

  /** The text is nothing but the chosen sections, with a blank line between them, and the manifest behind them. */
  lemma RenderedWhole(c: Context, sections: seq<Section>, chosen: set<nat>)
    requires forall i | i in chosen && i < |sections| :: VisibleEnds(sections[i].text, c.space)
    ensures var texts := Texts(TextsOf(sections), chosen, |sections|);
            Render(c, sections, chosen)
            == (if texts == [] then "" else Join(BREAK, texts) + BREAK) + c.manifest(sections, chosen)
  {
    JoinedEnds(TextsOf(sections), chosen, |sections|, c.space);
    StripNothing(Join(BREAK, Texts(TextsOf(sections), chosen, |sections|)), c.space);
  }

  lemma OneMoreLength(texts: seq<string>, chosen: set<nat>, n: nat)
    requires n < |texts|
    ensures |Texts(texts, chosen, n + 1)| == |Texts(texts, chosen, n)| + if n in chosen then 1 else 0
    ensures |Join(BREAK, Texts(texts, chosen, n + 1))|
         == |Join(BREAK, Texts(texts, chosen, n))|
            + if n !in chosen then 0 else |texts[n]| + if |Texts(texts, chosen, n)| == 0 then 0 else |BREAK|
  {
    OneMoreJoined(texts, chosen, n, Texts(texts, chosen, n), Texts(texts, chosen, n + 1));
  }

  /** The number of chosen texts below `n`, and their length when joined. */
  function Measured(texts: seq<string>, chosen: set<nat>, n: nat): (nat, nat)
    requires n <= |texts|
  {
    if n == 0 then (0, 0)
    else
      var before := Measured(texts, chosen, n - 1);
      if n - 1 !in chosen then before
      else (before.0 + 1, before.1 + |texts[n - 1]| + if before.0 == 0 then 0 else |BREAK|)
  }

  lemma {:induction false} MeasuredExactly(texts: seq<string>, chosen: set<nat>, n: nat)
    requires n <= |texts|
    ensures Measured(texts, chosen, n) == (|Texts(texts, chosen, n)|, |Join(BREAK, Texts(texts, chosen, n))|)
  {
    if n == 0 {
    } else {
      MeasuredExactly(texts, chosen, n - 1);
      OneMoreLength(texts, chosen, n - 1);
    }
  }

  /** Replacing one of the joined texts changes the length by what the text changes. */
  lemma {:induction false} ReplacedLength(texts: seq<string>, replaced: seq<string>, chosen: set<nat>, n: nat, i: nat)
    requires i < |texts| == |replaced| && i in chosen && n <= |texts|
    requires forall k | 0 <= k < |texts| && k != i :: replaced[k] == texts[k]
    ensures Measured(replaced, chosen, n).0 == Measured(texts, chosen, n).0
    ensures Measured(replaced, chosen, n).1 == Measured(texts, chosen, n).1 + if i < n then |replaced[i]| - |texts[i]| else 0
  {
    if n == 0 {
    } else {
      ReplacedLength(texts, replaced, chosen, n - 1, i);
    }
  }

  lemma RenderedLength(c: Context, sections: seq<Section>, chosen: set<nat>, i: nat)
    requires i < |sections| && i in chosen
    requires forall k | k in chosen && k < |sections| :: VisibleEnds(sections[k].text, c.space)
    ensures |Render(c, sections, chosen)|
         == Measured(TextsOf(sections), chosen, |sections|).1 + |BREAK| + |c.manifest(sections, chosen)|
  {
    RenderedWhole(c, sections, chosen);
    TextsNonEmpty(TextsOf(sections), chosen, |sections|, i);
    MeasuredExactly(TextsOf(sections), chosen, |sections|);
  }

  // ---------- Shrinking ----------

  function TotalLength(sections: seq<Section>): nat {
    if sections == [] then 0 else TotalLength(sections[..|sections| - 1]) + |sections[|sections| - 1].text|
  }

  lemma {:induction false} ReplacingShortens(sections: seq<Section>, i: nat, replacement: Section)
    requires i < |sections| && |replacement.text| < |sections[i].text|
    ensures TotalLength(sections[i := replacement]) < TotalLength(sections)
  {
    var n := |sections| - 1;
    if i < n {
      assert sections[i := replacement][..n] == sections[..n][i := replacement];
      ReplacingShortens(sections[..n], i, replacement);
    } else {
      assert sections[i := replacement][..n] == sections[..n];
    }
  }

  const SLACK := 32

  function NextLimit(length: int, overflow: int): int {
    Max(1, length - overflow - SLACK)
  }

  /** What one try on section `i` brings: a shorter section, or nothing. */
  function Try(c: Context, sections: seq<Section>, i: nat, overflow: int): Option<Section>
    requires i < |sections| == |c.sources|
  {
    match CompactSection(c.rules, c.sources[i], NextLimit(|sections[i].text|, overflow), true)
    case None => None
    case Some(replacement) => if |replacement.text| < |sections[i].text| then Some(replacement) else None
  }

  /** A try is for 32 characters less than would do, and brings a section only if it got shorter. */
  lemma TriesExactly(c: Context, sections: seq<Section>, i: nat, overflow: int, replacement: Section)
    requires i < |sections| == |c.sources|
    ensures Try(c, sections, i, overflow) == Some(replacement) <==>
              && |replacement.text| < |sections[i].text|
              && exists limit: int ::
                   && limit == (if |sections[i].text| - overflow > 33 then |sections[i].text| - overflow - 32 else 1)
                   && CompactSection(c.rules, c.sources[i], limit, true) == Some(replacement)
  {
    var limit := if |sections[i].text| - overflow > 33 then |sections[i].text| - overflow - 32 else 1;
    assert limit == NextLimit(|sections[i].text|, overflow);
  }

  /** These 32 characters are for the manifest: one replacement that was not tried for a single character is enough, if it
      makes the manifest no more than 32 characters longer. */
  lemma OneReplacementSuffices(c: Context, sections: seq<Section>, required: set<nat>, maxChars: int, i: nat)
    requires Lawful(c.rules) && |sections| == |c.sources| && i in required && i < |sections|
    requires WellCut(c.sources[i], c.space)
    requires forall k | k in required && k < |sections| :: VisibleEnds(sections[k].text, c.space)
    requires var overflow := |Render(c, sections, required)| - maxChars;
             Try(c, sections, i, overflow).Some? && |sections[i].text| - overflow - 32 >= 1
    requires var next := sections[i := Try(c, sections, i, |Render(c, sections, required)| - maxChars).value];
             |c.manifest(next, required)| <= |c.manifest(sections, required)| + 32
    ensures var next := sections[i := Try(c, sections, i, |Render(c, sections, required)| - maxChars).value];
            |Render(c, next, required)| <= maxChars
  {
    var overflow := |Render(c, sections, required)| - maxChars;
    var limit := |sections[i].text| - overflow - 32;
    var replacement := Try(c, sections, i, overflow).value;
    var next := sections[i := replacement];
    CompactedFits(c.rules, c.sources[i], limit);
    CompactedIsVisible(c.rules, c.sources[i], limit);
    RenderedLength(c, sections, required, i);
    RenderedLength(c, next, required, i);
    ReplacedLength(TextsOf(sections), TextsOf(next), required, |sections|, i);
  }

  /** The longest section of a non-empty set, the first of equals. */
  predicate Longest(sections: seq<Section>, among: set<nat>, i: nat)
    requires forall k | k in among :: k < |sections|
  {
    && i in among
    && forall k | k in among :: |sections[k].text| < |sections[i].text| || (|sections[k].text| == |sections[i].text| && i <= k)
  }

  method PickLongest(sections: seq<Section>, among: set<nat>) returns (best: nat)
    requires among != {} && forall k | k in among :: k < |sections|
    ensures Longest(sections, among, best)
  {
    var first :| first in among;
    best := first;
    var rest := among - {first};
    while rest != {}
      invariant rest <= among && best in among && Longest(sections, among - rest, best)
      decreases rest
    {
      var next :| next in rest;
      if |sections[next].text| > |sections[best].text| || (|sections[next].text| == |sections[best].text| && next < best) {
        best := next;
      }
      rest := rest - {next};
    }
    assert among - rest == among;
  }

  /** `SectionTooLong` is a section that cannot even be compacted to its own limit. */
  datatype Compacted =
    | Fitted(text: string, sections: seq<Section>, chosen: set<nat>)
    | Stuck(sections: seq<Section>)
    | SectionTooLong(index: nat)

  /** No section got longer, and only required ones changed. */
  predicate ShrunkFrom(before: seq<Section>, after: seq<Section>, required: set<nat>) {
    && |after| == |before|
    && forall i | 0 <= i < |before| ::
         |after[i].text| <= |before[i].text| && (i !in required ==> after[i] == before[i])
  }

  /** No further shrinking helps although the required sections alone exceed the budget. */
  predicate NoWayToFit(c: Context, sections: seq<Section>, required: set<nat>, maxChars: int)
    requires |sections| == |c.sources|
  {
    && |Render(c, sections, required)| > maxChars
    && forall i | i in required :: i < |sections|
         && Try(c, sections, i, |Render(c, sections, required)| - maxChars).None?
  }

  /** The section is its source compacted, as a required one, to some limit. */
  ghost predicate CompactedTo(c: Context, i: nat, section: Section)
    requires i < |c.sources|
  {
    exists limit: int :: CompactSection(c.rules, c.sources[i], limit, true) == Some(section)
  }

  ghost predicate AllCompacted(c: Context, sections: seq<Section>, required: set<nat>) {
    |sections| == |c.sources| && forall i | i in required :: i < |sections| && CompactedTo(c, i, sections[i])
  }

  lemma ShrinkStep(c: Context, sections: seq<Section>, required: set<nat>, overflow: int, i: nat)
    requires AllCompacted(c, sections, required) && i in required && Try(c, sections, i, overflow).Some?
    ensures var next := sections[i := Try(c, sections, i, overflow).value];
            && AllCompacted(c, next, required) && ShrunkFrom(sections, next, required)
            && TotalLength(next) < TotalLength(sections)
  {
    var replacement := Try(c, sections, i, overflow).value;
    ReplacingShortens(sections, i, replacement);
    assert CompactedTo(c, i, replacement);
  }

  /** The one tried section that is replaced: no longer one, and of equals no earlier one, becomes shorter. */
  predicate FirstToShrink(c: Context, sections: seq<Section>, required: set<nat>, overflow: int, i: nat)
    requires |sections| == |c.sources| && AllBelow(required, |sections|)
  {
    && i in required && Try(c, sections, i, overflow).Some?
    && forall k | k in required && (|sections[k].text| > |sections[i].text| || (|sections[k].text| == |sections[i].text| && k < i)) ::
         Try(c, sections, k, overflow).None?
  }

  /** Tries the required sections, longest first, and replaces the first that becomes shorter. */
  method ShrinkOne(c: Context, sections: seq<Section>, required: set<nat>, overflow: int)
      returns (progress: bool, next: seq<Section>)
    requires AllBelow(required, |sections|) && AllCompacted(c, sections, required)
    ensures !progress ==> next == sections && forall i | i in required :: Try(c, sections, i, overflow).None?
    ensures progress ==>
              && (exists i: nat :: FirstToShrink(c, sections, required, overflow, i)
                              && next == sections[i := Try(c, sections, i, overflow).value])
              && AllCompacted(c, next, required) && ShrunkFrom(sections, next, required)
              && TotalLength(next) < TotalLength(sections)
  {
    var left := required;
    while left != {}
      invariant left <= required
      invariant forall k | k in required - left :: Try(c, sections, k, overflow).None?
      decreases left
    {
      var i := PickLongest(sections, left);
      var replacement := Try(c, sections, i, overflow);
      if replacement.Some? {
        ShrinkStep(c, sections, required, overflow, i);
        assert FirstToShrink(c, sections, required, overflow, i);
        return true, sections[i := replacement.value];
      }
      left := left - {i};
    }
    return false, sections;
  }

  /** One round of the loop. */
  method ShrinkFurther(c: Context, sections: seq<Section>, required: set<nat>, maxChars: int)
      returns (progress: bool, next: seq<Section>)
    requires AllCompacted(c, sections, required) && |Render(c, sections, required)| > maxChars
    ensures !progress ==> next == sections && NoWayToFit(c, sections, required, maxChars)
    ensures progress ==>
              && AllCompacted(c, next, required) && ShrunkFrom(sections, next, required)
              && TotalLength(next) < TotalLength(sections)
  {
    progress, next := ShrinkOne(c, sections, required, |Render(c, sections, required)| - maxChars);
  }

  lemma ShrunkTwice(a: seq<Section>, b: seq<Section>, c: seq<Section>, required: set<nat>)
    requires ShrunkFrom(a, b, required) && ShrunkFrom(b, c, required)
    ensures ShrunkFrom(a, c, required)
  {
  }

  method ShrinkToFit(c: Context, initial: seq<Section>, required: set<nat>, maxChars: int)
      returns (fits: bool, sections: seq<Section>)
    requires AllCompacted(c, initial, required)
    ensures AllCompacted(c, sections, required) && ShrunkFrom(initial, sections, required)
    ensures fits ==> |Render(c, sections, required)| <= maxChars
    ensures !fits ==> NoWayToFit(c, sections, required, maxChars)
    ensures |Render(c, initial, required)| <= maxChars ==> sections == initial
  {
    sections := initial;
    while |Render(c, sections, required)| > maxChars
      invariant ShrunkFrom(initial, sections, required) && AllCompacted(c, sections, required)
      invariant |Render(c, initial, required)| <= maxChars ==> sections == initial
      decreases TotalLength(sections)
    {
      var progress, next := ShrinkFurther(c, sections, required, maxChars);
      if !progress {
        return false, sections;
      }
      ShrunkTwice(initial, sections, next, required);
      sections := next;
    }
    return true, sections;
  }

  /** Every section on its own, to its own limit; a section that cannot be compacted ends it all. */
  method CompactEach(c: Context, limits: seq<int>, required: set<nat>) returns (result: Option<seq<Section>>, failed: nat)
    requires |limits| == |c.sources|
    ensures result.Some? ==>
              && |result.value| == |c.sources|
              && forall i: nat | i < |c.sources| ::
                   CompactSection(c.rules, c.sources[i], limits[i], i in required) == Some(result.value[i])
    ensures result.None? ==>
              failed < |c.sources| && CompactSection(c.rules, c.sources[failed], limits[failed], failed in required).None?
  {
    var sections := [];
    for i := 0 to |c.sources|
      invariant |sections| == i
      invariant forall k: nat | k < i ::
                  CompactSection(c.rules, c.sources[k], limits[k], k in required) == Some(sections[k])
    {
      var section := CompactSection(c.rules, c.sources[i], limits[i], i in required);
      if section.None? {
        return None, i;
      }
      sections := sections + [section.value];
    }
    return Some(sections), 0;
  }

  /** Each section is in the text, whole: its heading, where it has one, and what was kept of its body. */
  ghost predicate AllPresent(c: Context, sections: seq<Section>, required: set<nat>, text: string) {
    forall i | i in required ::
      && i < |sections| == |c.sources| && Contains(text, sections[i].text)
      && (HasHeading(c.sources[i].text) ==> HeadingOf(c.sources[i]) <= sections[i].text)
  }

  lemma RequiredPresent(c: Context, sections: seq<Section>, required: set<nat>, chosen: set<nat>)
    requires Lawful(c.rules) && forall i | 0 <= i < |c.sources| :: WellCut(c.sources[i], c.space)
    requires AllCompacted(c, sections, required) && required <= chosen
    ensures AllPresent(c, sections, required, Render(c, sections, chosen))
  {
    forall i | i in required
      ensures Contains(Render(c, sections, chosen), sections[i].text)
      ensures HasHeading(c.sources[i].text) ==> HeadingOf(c.sources[i]) <= sections[i].text
    {
      var limit: int :| CompactSection(c.rules, c.sources[i], limit, true) == Some(sections[i]);
      CompactedIsVisible(c.rules, c.sources[i], limit);
      ChosenSectionsPresent(c, sections, chosen, i);
    }
  }

  /** The whole compaction ends: the text with its manifest fits and holds every required section, heading first, or the
      required sections cannot be shrunk any further, or one section cannot be compacted at all. */
  method CompactMarkdown(c: Context, limits: seq<int>, required: set<nat>, preferRecent: bool, maxChars: int)
      returns (result: Compacted)
    requires Lawful(c.rules) && forall i | 0 <= i < |c.sources| :: WellCut(c.sources[i], c.space)
    requires |limits| == |c.sources| > 0 && AllBelow(required, |c.sources|)
    ensures result.Fitted? ==>
              && |result.text| <= maxChars && result.text == Render(c, result.sections, result.chosen)
              && required <= result.chosen && AllBelow(result.chosen, |c.sources|)
              && AllCompacted(c, result.sections, required) && AllPresent(c, result.sections, required, result.text)
              && (forall i | i in required :: |result.sections[i].text| <= limits[i])
              && SectionsByTurn(c, result.sections, preferRecent, required, result.chosen, maxChars)
              && forall i: nat | i < |c.sources| && i !in required ::
                   CompactSection(c.rules, c.sources[i], limits[i], false) == Some(result.sections[i])
    ensures result.Stuck? ==>
              AllCompacted(c, result.sections, required) && NoWayToFit(c, result.sections, required, maxChars)
    ensures result.SectionTooLong? <==>
              exists i: nat :: i < |c.sources| && CompactSection(c.rules, c.sources[i], limits[i], i in required).None?
  {
    var initial, failed := CompactEach(c, limits, required);
    if initial.None? {
      return SectionTooLong(failed);
    }
    forall i | i in required ensures CompactedTo(c, i, initial.value[i]) && |initial.value[i].text| <= limits[i] {
      assert CompactSection(c.rules, c.sources[i], limits[i], true) == Some(initial.value[i]);
      CompactedFits(c.rules, c.sources[i], limits[i]);
    }
    var fits, sections := ShrinkToFit(c, initial.value, required, maxChars);
    if !fits {
      return Stuck(sections);
    }
    var chosen := ChooseSections(c, sections, required, preferRecent, maxChars);
    RequiredPresent(c, sections, required, chosen);
    return Fitted(Render(c, sections, chosen), sections, chosen);
  }

  /** Every other section is in exactly when the text that shows it fitted at its turn. */
  ghost predicate SectionsByTurn(c: Context, sections: seq<Section>, preferRecent: bool, required: set<nat>, chosen: set<nat>,
                                 maxChars: int)
  {
    var terms := seq<nat>(|sections|, k requires 0 <= k < |sections| => c.rules.relevance(sections[k].text));
    forall i: nat | i < |sections| && i !in required ::
      i in chosen <==> |Render(c, sections, AtTurn(required, terms, preferRecent, chosen, i) + {i})| <= maxChars
  }

  lemma ChosenSectionsByTurn(c: Context, sections: seq<Section>, preferRecent: bool, required: set<nat>, order: seq<nat>,
                             chosen: set<nat>, maxChars: int)
    requires order == Order(Relevances(c.rules.relevance, TextsOf(sections)), preferRecent, |sections|)
    requires Greedy(indexes => |Render(c, sections, indexes)|, required, order, chosen, maxChars, None)
    ensures SectionsByTurn(c, sections, preferRecent, required, chosen, maxChars)
  {
    var terms := seq<nat>(|sections|, k requires 0 <= k < |sections| => c.rules.relevance(sections[k].text));
    assert terms == Relevances(c.rules.relevance, TextsOf(sections));
    GreedyByTurn(indexes => |Render(c, sections, indexes)|, required, terms, preferRecent, order, chosen, maxChars, None);
  }

  method ChooseSections(c: Context, sections: seq<Section>, required: set<nat>, preferRecent: bool, maxChars: int)
      returns (chosen: set<nat>)
    requires AllBelow(required, |sections|) && |Render(c, sections, required)| <= maxChars
    ensures required <= chosen && AllBelow(chosen, |sections|) && |Render(c, sections, chosen)| <= maxChars
    ensures SectionsByTurn(c, sections, preferRecent, required, chosen, maxChars)
  {
    var scores := Relevances(c.rules.relevance, TextsOf(sections));
    var order := Order(scores, preferRecent, |scores|);
    OrderIsRanking(scores, preferRecent, |scores|);
    var choice := ChooseIndexes(indexes => |Render(c, sections, indexes)|, required, order, maxChars, None);
    ChosenSectionsByTurn(c, sections, preferRecent, required, order, choice.indexes, maxChars);
    return choice.indexes;
  }
}
