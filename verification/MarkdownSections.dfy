/** Compacting one Markdown section: its heading, and whole paragraphs or whole JSON entries of its body. */
module MarkdownSections {
  import opened Common
  import opened AttemptIds
  import opened Selection
  import opened Renderers
  import opened Paragraphs

  /** A section as cut from the document; `id` names it among the sections. */
  datatype Source = Source(id: string, name: string, text: string)

  /** A section after compaction, with the ids of the items it kept. */
  datatype Section = Section(text: string, ids: seq<string>)

  /** One entry of a JSON object or list: `text` is what it is ranked by. */
  datatype Item = Item(key: string, text: string)

  /** What a body is as JSON; `render` is the JSON text of chosen entries. Of an object only the admitted keys are
      entries; `named` are those demanded by name, if `anyNamed` key is demanded at all. */
  datatype Json =
    | NotJson
    | Object(items: seq<Item>, named: set<nat>, anyNamed: bool, render: set<nat> -> string)
    | List(items: seq<Item>, render: set<nat> -> string)
    | Scalar(text: string)

  /** `relevance` counts the query terms in a text; `restricted` says that only some JSON keys of a section are admitted. */
  datatype Rules = Rules(space: set<char>, relevance: string -> nat, parse: (Source, string) -> Json,
                         restricted: Source -> bool)

  // ---------- Heading and body ----------

  function StripLeft(text: string, space: set<char>): string {
    if text != "" && text[0] in space then StripLeft(text[1..], space) else text
  }

  function StripRight(text: string, space: set<char>): string {
    if text != "" && text[|text| - 1] in space then StripRight(text[..|text| - 1], space) else text
  }

  function Strip(text: string, space: set<char>): string {
    StripRight(StripLeft(text, space), space)
  }

  predicate HasHeading(text: string) {
    |text| > 2 && text[0] == '#' && text[1] == ' ' && LineEnd(text, 2) > 2
  }

  function HeadingOf(source: Source): string {
    if HasHeading(source.text) then source.text[..LineEnd(source.text, 2)] else "# " + source.name
  }

  /** Behind an optional carriage return and an optional newline. */
  function BehindBreak(text: string, p: nat): (end: nat)
    requires p <= |text|
    ensures p <= end <= |text|
  {
    var q := if p < |text| && text[p] == '\r' then p + 1 else p;
    if q < |text| && text[q] == '\n' then q + 1 else q
  }

  function BodyOf(source: Source, space: set<char>): string {
    if HasHeading(source.text) then Strip(source.text[BehindBreak(source.text, LineEnd(source.text, 2))..], space)
    else source.text
  }

  // ---------- Compaction ----------

  /** The ids of the chosen ones among the first `n`, in order. */
  function IdsOf(prefix: string, chosen: set<nat>, n: nat): seq<string> {
    if n == 0 then [] else IdsOf(prefix, chosen, n - 1) + if n - 1 in chosen then [prefix + Decimal(n - 1)] else []
  }

  function KeysOf(prefix: string, items: seq<Item>, chosen: set<nat>, n: nat): seq<string>
    requires n <= |items|
  {
    if n == 0 then []
    else KeysOf(prefix, items, chosen, n - 1) + if n - 1 in chosen then [prefix + items[n - 1].key] else []
  }

  function Edged(required: bool): Required {
    if required then Edges else Indexes({})
  }

  /** Whole paragraphs of a body that is not JSON; of a required one the first and the last. */
  function CompactText(r: Rules, source: Source, heading: string, body: string, limit: int, required: bool): Option<Section> {
    match SelectionOf(body, r.space, r.relevance, Edged(required), limit, true)
    case WholeText => Some(if body == "" then Section(heading, []) else Section(heading + "\n" + body, [source.id + "/document"]))
    case Selected(text, spans, chosen) =>
      Some(Section(if text == "" then heading else heading + "\n" + text, IdsOf(source.id + "/paragraph:", chosen, |spans|)))
    case NothingToSelect => Some(Section(heading, []))
    case RequiredExceed(_) => None
  }

  function Ranks(items: seq<Item>): seq<string> {
    seq(|items|, i requires 0 <= i < |items| => items[i].text)
  }

  function ChooseItems(r: Rules, items: seq<Item>, render: set<nat> -> string, kept: set<nat>, limit: int): Chosen {
    Choose(chosen => |render(chosen)|, kept, Order(Relevances(r.relevance, Ranks(items)), true, |items|), limit, None)
  }

  /** The entries of a JSON body that must be kept. Of a required object these are all unless some are demanded by
      name, of a required list the first and the last. */
  function KeptItems(json: Json, required: bool): set<nat>
    requires json.Object? || json.List?
  {
    if json.Object? then (if required && !json.anyNamed then UpTo(|json.items|) else json.named)
    else if required && json.items != [] then {0, |json.items| - 1}
    else {}
  }

  /** Whole entries of a JSON body; a single value too long to keep is dropped unless it is required. */
  function CompactJson(r: Rules, source: Source, json: Json, limit: int, required: bool): Option<Section>
    requires !json.NotJson?
  {
    if json.Scalar? then
      if |json.text| <= limit then Some(Section(json.text, [source.name + "/json:value"]))
      else if required then None
      else Some(Section("null", []))
    else
      match ChooseItems(r, json.items, json.render, KeptItems(json, required), limit)
      case Chosen(chosen) =>
        var n, prefix := |json.items|, source.name + "/json:";
        Some(Section(json.render(chosen), if json.Object? then KeysOf(prefix, json.items, chosen, n) else IdsOf(prefix, chosen, n)))
      case _ => None
  }

  /** Longer than its limit, or with JSON keys that are not admitted. */
  predicate MustBeCut(r: Rules, source: Source, limit: int) {
    |source.text| > limit || r.restricted(source)
  }

  /** The body as JSON. */
  function Parsed(r: Rules, source: Source): Json {
    r.parse(source, BodyOf(source, r.space))
  }

  /** `None` is a required section, or a JSON body, of which too little fits. */
  function CompactSection(r: Rules, source: Source, limit: int, required: bool): Option<Section> {
    var heading, body := HeadingOf(source), BodyOf(source, r.space);
    var bodyLimit := limit - |heading| - 2;
    if !MustBeCut(r, source, limit) then Some(Section(source.text, []))
    else if bodyLimit < 1 then if required then None else Some(Section(heading, []))
    else
      var json := Parsed(r, source);
      if json.NotJson? then CompactText(r, source, heading, body, bodyLimit, required)
      else
        match CompactJson(r, source, json, bodyLimit, required)
        case None => None
        case Some(compact) => Some(Section(heading + "\n" + compact.text, compact.ids))
  }

  // ---------- What compaction keeps ----------

  lemma ParagraphsFit(text: string, space: set<char>, relevance: string -> nat, limit: int)
    requires SpaceLike(space)
    ensures var selection := SelectionOf(text, space, relevance, Edges, limit, true);
            selection.Selected? ==> |selection.text| <= limit
  {
    SelectionSound(text, space, relevance, Edges, limit, true);
  }

  /** A required section, once compacted, keeps to its limit. */
  lemma CompactedFits(r: Rules, source: Source, limit: int)
    requires SpaceLike(r.space) && CompactSection(r, source, limit, true).Some?
    ensures |CompactSection(r, source, limit, true).value.text| <= limit
  {
    var heading, body := HeadingOf(source), BodyOf(source, r.space);
    var bodyLimit := limit - |heading| - 2;
    var json := Parsed(r, source);
    if json.NotJson? {
      ParagraphsFit(body, r.space, r.relevance, bodyLimit);
    } else if !json.Scalar? {
      ItemsFit(r, json, bodyLimit);
    }
  }

  lemma ItemsFit(r: Rules, json: Json, limit: int)
    requires json.Object? || json.List?
    ensures var choice := ChooseItems(r, json.items, json.render, KeptItems(json, true), limit);
            choice.Chosen? ==> |json.render(choice.indexes)| <= limit && KeptItems(json, true) <= choice.indexes
  {
    var cost := chosen => |json.render(chosen)|;
    if cost(KeptItems(json, true)) <= limit {
      PicksFit(cost, Order(Relevances(r.relevance, Ranks(json.items)), true, |json.items|), KeptItems(json, true), limit, None);
    }
  }

  /** The entries that must stay whole: every entry of a required object of which none is demanded by name, every entry
      demanded by name, and both ends of a required list. */
  predicate MustStay(json: Json, required: bool, i: nat)
    requires json.Object? || json.List?
  {
    && i < |json.items|
    && (if json.Object? then i in json.named || (required && !json.anyNamed) else required && (i == 0 || i == |json.items| - 1))
  }

  /** It fits with all that must stay and all that was chosen before. */
  predicate EntryFits(r: Rules, json: Json, required: bool, chosen: set<nat>, i: nat, left: int)
    requires (json.Object? || json.List?) && i < |json.items|
  {
    var terms := seq<nat>(|json.items|, k requires 0 <= k < |json.items| => r.relevance(json.items[k].text));
    var there := set k | k in chosen && k < |json.items| && (MustStay(json, required, k) || TurnsBefore(terms, true, k, i));
    |json.render(there + {i})| <= left
  }

  /** The text shows the entries that must stay, and of the others exactly those that fitted at their turn. */
  ghost predicate ShowsEntries(r: Rules, json: Json, required: bool, left: int, shown: string, chosen: set<nat>)
    requires json.Object? || json.List?
  {
    && shown == json.render(chosen) && |shown| <= left
    && (forall i | i in chosen :: i < |json.items|)
    && forall i: nat | i < |json.items| ::
         i in chosen <==> MustStay(json, required, i) || EntryFits(r, json, required, chosen, i, left)
  }

  /** Entries demanded by name are entries, and then some key is demanded. */
  predicate NamedFits(json: Json) {
    json.Object? ==> (forall i | i in json.named :: i < |json.items|) && (json.named != {} ==> json.anyNamed)
  }

  ghost predicate AllThatMustStay(json: Json, required: bool, kept: set<nat>)
    requires json.Object? || json.List?
  {
    forall i: nat :: i in kept <==> MustStay(json, required, i)
  }

  lemma KeptExactly(json: Json, required: bool, kept: set<nat>)
    requires (json.Object? || json.List?) && NamedFits(json)
    ensures AllThatMustStay(json, required, kept) <==> kept == KeptItems(json, required)
  {
    assert AllThatMustStay(json, required, KeptItems(json, required));
  }

  lemma EntryFitsAtTurn(r: Rules, json: Json, required: bool, chosen: set<nat>, i: nat, left: int)
    requires (json.Object? || json.List?) && NamedFits(json) && i < |json.items|
    requires forall k | k in chosen :: k < |json.items|
    ensures var there := AtTurn(KeptItems(json, required), Relevances(r.relevance, Ranks(json.items)), true, chosen, i);
            EntryFits(r, json, required, chosen, i, left) <==> |json.render(there + {i})| <= left
  {
    var terms := seq<nat>(|json.items|, k requires 0 <= k < |json.items| => r.relevance(json.items[k].text));
    assert terms == Relevances(r.relevance, Ranks(json.items));
    KeptExactly(json, required, KeptItems(json, required));
    assert AtTurn(KeptItems(json, required), terms, true, chosen, i)
        == set k | k in chosen && k < |json.items| && (MustStay(json, required, k) || TurnsBefore(terms, true, k, i));
  }

  lemma ItemsByTurn(r: Rules, json: Json, required: bool, left: int)
    requires (json.Object? || json.List?) && NamedFits(json)
    ensures var kept := KeptItems(json, required);
            var choice := ChooseItems(r, json.items, json.render, kept, left);
            && (choice.Chosen? <==> |json.render(kept)| <= left)
            && (choice.Chosen? ==> ShowsEntries(r, json, required, left, json.render(choice.indexes), choice.indexes))
  {
    var kept := KeptItems(json, required);
    var choice := ChooseItems(r, json.items, json.render, kept, left);
    KeptExactly(json, required, kept);
    ChosenByTurn(chosen => |json.render(chosen)|, kept, Relevances(r.relevance, Ranks(json.items)), true, left, None);
    if choice.Chosen? {
      forall i: nat | i < |json.items|
        ensures i in choice.indexes <==> MustStay(json, required, i) || EntryFits(r, json, required, choice.indexes, i, left)
      {
        EntryFitsAtTurn(r, json, required, choice.indexes, i, left);
      }
    }
  }

  lemma CutsJson(r: Rules, source: Source, limit: int, required: bool, json: Json, kept: set<nat>)
    requires MustBeCut(r, source, limit)
    requires json == Parsed(r, source) && limit - |HeadingOf(source)| - 2 >= 1
    requires (json.Object? || json.List?) && kept == KeptItems(json, required)
    ensures var compact := CompactSection(r, source, limit, required);
            var choice := ChooseItems(r, json.items, json.render, kept, limit - |HeadingOf(source)| - 2);
            && (compact.Some? <==> choice.Chosen?)
            && (choice.Chosen? ==>
                  && compact.value.text == HeadingOf(source) + "\n" + json.render(choice.indexes)
                  && compact.value.ids == if json.Object? then KeysOf(source.name + "/json:", json.items, choice.indexes, |json.items|)
                                          else IdsOf(source.name + "/json:", choice.indexes, |json.items|))
  {
  }

  /** A JSON object or list that has to be cut keeps every entry that must stay and each other one that fits at its turn,
      and cutting fails exactly when those that must stay are too long. */
  lemma CompactedKeepsEntries(r: Rules, source: Source, limit: int, required: bool, json: Json, kept: set<nat>)
      returns (shown: string, chosen: set<nat>)
    requires MustBeCut(r, source, limit) && limit - |HeadingOf(source)| - 2 >= 1
    requires json == Parsed(r, source) && (json.Object? || json.List?) && NamedFits(json)
    requires AllThatMustStay(json, required, kept)
    ensures var heading, compact := HeadingOf(source), CompactSection(r, source, limit, required);
            var left := limit - |heading| - 2;
            && (compact.None? <==> |json.render(kept)| > left)
            && (compact.Some? ==>
                  && compact.value.text == heading + "\n" + shown && ShowsEntries(r, json, required, left, shown, chosen)
                  && compact.value.ids == if json.Object? then KeysOf(source.name + "/json:", json.items, chosen, |json.items|)
                                          else IdsOf(source.name + "/json:", chosen, |json.items|))
  {
    var left := limit - |HeadingOf(source)| - 2;
    KeptExactly(json, required, kept);
    CutsJson(r, source, limit, required, json, kept);
    ItemsByTurn(r, json, required, left);
    var choice := ChooseItems(r, json.items, json.render, kept, left);
    chosen := if choice.Chosen? then choice.indexes else {};
    shown := json.render(chosen);
  }

  /** Any other section that has to be cut: a heading that leaves no room stands alone or, in a required section, is refused;
      a single JSON value stays whole, or is dropped if not required. */
  lemma CutOtherwise(r: Rules, source: Source, limit: int, required: bool)
    requires MustBeCut(r, source, limit)
    ensures var heading, json := HeadingOf(source), Parsed(r, source);
            var left, compact := limit - |heading| - 2, CompactSection(r, source, limit, required);
            if left < 1 then compact == if required then None else Some(Section(heading, []))
            else json.Scalar? ==>
              compact == if |json.text| <= left then Some(Section(heading + "\n" + json.text, [source.name + "/json:value"]))
                         else if required then None else Some(Section(heading + "\n" + "null", []))
  {
  }

  /** Short sections stay as they are, unless only some of their JSON keys are admitted. */
  lemma ShortStaysWhole(r: Rules, source: Source, limit: int, required: bool)
    requires |source.text| <= limit && !r.restricted(source)
    ensures CompactSection(r, source, limit, required) == Some(Section(source.text, []))
  {
  }

  /** The text begins and ends with something visible. */
  predicate VisibleEnds(text: string, space: set<char>) {
    text != "" && text[0] !in space && text[|text| - 1] !in space
  }

  /** How sections are cut from a document, and JSON texts end in a bracket, a quote or a digit. */
  ghost predicate Lawful(r: Rules) {
    && SpaceLike(r.space) && '#' !in r.space
    && (forall source, body :: JsonVisible(r.parse(source, body), r.space))
  }

  ghost predicate JsonVisible(json: Json, space: set<char>) {
    match json
    case NotJson => true
    case Scalar(text) => VisibleEnds(text, space)
    case _ => forall chosen: set<nat> :: VisibleEnds(json.render(chosen), space)
  }

  predicate WellCut(source: Source, space: set<char>) {
    VisibleEnds(source.text, space) && source.text[0] == '#'
  }

  lemma {:induction false} StripLeftEnds(text: string, space: set<char>)
    ensures var left := StripLeft(text, space);
            && (left == "" ==> forall k | 0 <= k < |text| :: text[k] in space)
            && (left != "" ==> left[0] !in space && left[|left| - 1] == text[|text| - 1])
    decreases |text|
  {
    if text == "" || text[0] !in space {
    } else {
      StripLeftEnds(text[1..], space);
      assert forall k | 0 < k < |text| :: text[k] == text[1..][k - 1];
    }
  }

  lemma {:induction false} StripRightEnds(text: string, space: set<char>)
    requires text != "" && text[0] !in space
    ensures VisibleEnds(StripRight(text, space), space)
    decreases |text|
  {
    if text[|text| - 1] !in space {
    } else {
      StripRightEnds(text[..|text| - 1], space);
    }
  }

  lemma StripEnds(text: string, space: set<char>)
    ensures if Strip(text, space) == "" then forall k | 0 <= k < |text| :: text[k] in space
            else VisibleEnds(Strip(text, space), space)
  {
    StripLeftEnds(text, space);
    if StripLeft(text, space) != "" {
      StripRightEnds(StripLeft(text, space), space);
    }
  }

  // ---------- What is heading and what is body ----------

  predicate AllIn(text: string, space: set<char>) {
    forall k | 0 <= k < |text| :: text[k] in space
  }

  lemma {:induction false} StripLeftSplit(text: string, space: set<char>) returns (left: string)
    ensures text == left + StripLeft(text, space) && AllIn(left, space)
    decreases |text|
  {
    left := "";
    if text != "" && text[0] in space {
      left := StripLeftSplit(text[1..], space);
      left := [text[0]] + left;
    }
  }

  lemma {:induction false} StripRightSplit(text: string, space: set<char>) returns (right: string)
    ensures text == StripRight(text, space) + right && AllIn(right, space)
    decreases |text|
  {
    right := "";
    if text != "" && text[|text| - 1] in space {
      right := StripRightSplit(text[..|text| - 1], space);
      right := right + [text[|text| - 1]];
    }
  }

  lemma {:induction false} LineEndExactly(text: string, p: nat)
    requires p <= |text|
    ensures var end := LineEnd(text, p);
            && (forall k | p <= k < end :: text[k] !in {'\r', '\n'}) && (end < |text| ==> text[end] in {'\r', '\n'})
    decreases |text| - p
  {
    if p < |text| && text[p] != '\r' && text[p] != '\n' {
      LineEndExactly(text, p + 1);
    }
  }

  lemma StripSplit(text: string, space: set<char>) returns (left: string, right: string)
    ensures text == left + Strip(text, space) + right && AllIn(left, space) && AllIn(right, space)
    ensures Strip(text, space) != "" ==> VisibleEnds(Strip(text, space), space)
  {
    left := StripLeftSplit(text, space);
    right := StripRightSplit(StripLeft(text, space), space);
    StripEnds(text, space);
  }

  /** A section has a heading exactly if it begins with a hash, a blank and a character on the same line. */
  lemma HeadedExactly(text: string)
    ensures HasHeading(text) <==> |text| > 2 && text[0] == '#' && text[1] == ' ' && text[2] !in {'\r', '\n'}
  {
    if |text| > 2 {
      LineEndExactly(text, 2);
    }
  }

  lemma HeadingIsLine(text: string, end: nat, heading: string)
    requires HasHeading(text) && end == LineEnd(text, 2) && heading == text[..end]
    ensures (forall k | 0 <= k < |heading| :: heading[k] !in {'\r', '\n'}) && (end < |text| ==> text[end] in {'\r', '\n'})
  {
    LineEndExactly(text, 2);
    assert forall k | 2 <= k < end :: heading[k] == text[k];
  }

  lemma BehindBreakExactly(text: string, end: nat, behind: nat, space: set<char>)
    requires SpaceLike(space) && end <= |text| && behind == BehindBreak(text, end)
    ensures AllIn(text[end..behind], space)
  {
  }

  lemma InThreeParts(text: string, end: nat, behind: nat, left: string, body: string, right: string, space: set<char>)
    requires end <= behind <= |text| && AllIn(text[end..behind], space) && AllIn(left, space)
    requires text[behind..] == left + body + right
    ensures text == text[..end] + (text[end..behind] + left) + body + right && AllIn(text[end..behind] + left, space)
    ensures end < |text| ==> (text[end..behind] + left + body + right)[0] == text[end]
  {
    assert text == text[..end] + text[end..behind] + text[behind..];
    assert text[end..] == text[end..behind] + left + body + right;
  }

  /** The heading of a section that has one is its first line, and the body all that follows, but for the white space around
      it; any other section is headed by its name, and all of it is the body. */
  lemma HeadingAndBody(source: Source, space: set<char>, heading: string, body: string) returns (left: string, right: string)
    requires SpaceLike(space) && heading == HeadingOf(source) && body == BodyOf(source, space)
    ensures !HasHeading(source.text) ==> heading == "# " + source.name && body == source.text
    ensures HasHeading(source.text) ==>
              && source.text == heading + left + body + right && AllIn(left, space) && AllIn(right, space)
              && (forall k | 0 <= k < |heading| :: heading[k] !in {'\r', '\n'})
              && (left + body + right != "" ==> (left + body + right)[0] in {'\r', '\n'})
              && (body != "" ==> VisibleEnds(body, space))
  {
    left, right := "", "";
    var text := source.text;
    if HasHeading(text) {
      var end := LineEnd(text, 2);
      var behind := BehindBreak(text, end);
      var before;
      before, right := StripSplit(text[behind..], space);
      HeadingIsLine(text, end, heading);
      BehindBreakExactly(text, end, behind, space);
      InThreeParts(text, end, behind, before, body, right, space);
      left := text[end..behind] + before;
    }
  }

  /** The ids of what is shown: of each chosen place its own, in order. */
  lemma {:induction false} IdsInOrder(prefix: string, items: seq<Item>, chosen: set<nat>, n: nat, where: seq<nat>, k: nat)
    requires n <= |items| && Lists(where, k, chosen, n)
    ensures |IdsOf(prefix, chosen, n)| == |KeysOf(prefix, items, chosen, n)| == k
    ensures forall p | 0 <= p < k ::
              && where[p] < |items| && IdsOf(prefix, chosen, n)[p] == prefix + Decimal(where[p])
              && KeysOf(prefix, items, chosen, n)[p] == prefix + items[where[p]].key
  {
    if n == 0 {
      ListsNothing(where, k, chosen);
    } else {
      ListsLess(where, k, chosen, n - 1);
      IdsInOrder(prefix, items, chosen, n - 1, where, if n - 1 in chosen then k - 1 else k);
    }
  }

  /** A body without visible text means that the section is nothing but its heading. */
  lemma BodyEnds(source: Source, space: set<char>)
    requires SpaceLike(space) && WellCut(source, space)
    ensures BodyOf(source, space) != "" ==> VisibleEnds(BodyOf(source, space), space)
    ensures BodyOf(source, space) == "" ==> HeadingOf(source) == source.text
  {
    if HasHeading(source.text) {
      var text, end := source.text, LineEnd(source.text, 2);
      var behind := BehindBreak(text, end);
      StripEnds(text[behind..], space);
      assert behind < |text| ==> text[behind..][|text| - 1 - behind] == text[|text| - 1];
      assert end < behind ==> text[behind - 1] in space;
    }
  }

  /** A rendering that holds the last paragraph ends with it. */
  lemma RenderingEnds(texts: seq<string>, chosen: set<nat>) returns (front: string)
    requires texts != [] && |texts| - 1 in chosen
    ensures RenderParagraphs(texts, chosen) == front + texts[|texts| - 1]
  {
    var parts, last := Parts(texts, chosen, |texts|), texts[|texts| - 1];
    var before := parts[..|parts| - 1];
    assert parts == before + [last];
    JoinOne(BREAK, before, last);
    front := if before == [] then "" else Join(BREAK, before) + BREAK;
  }

  lemma LastOfSplitEnds(text: string, space: set<char>, spans: seq<Span>, pieces: seq<string>)
    requires SpaceLike(space) && Split(text, space, spans, |text|) && spans != [] && pieces == Pieces(text, spans)
    ensures |pieces| == |spans|
    ensures var last := pieces[|pieces| - 1]; last != "" && last[|last| - 1] !in space
  {
    assert Trimmed(text, space, spans[|spans| - 1], |text|);
    assert pieces[|spans| - 1] == Piece(text, spans[|spans| - 1]);
  }

  lemma LastPieceEnds(text: string, space: set<char>, spans: seq<Span>, pieces: seq<string>)
    requires SpaceLike(space) && spans == Entries(text, space) && spans != [] && pieces == Pieces(text, spans)
    ensures |pieces| == |spans|
    ensures var last := pieces[|pieces| - 1]; last != "" && last[|last| - 1] !in space
  {
    EntriesSplit(text, space);
    LastOfSplitEnds(text, space, spans, pieces);
  }

  lemma SomethingToSelect(text: string, space: set<char>)
    requires SpaceLike(space) && VisibleEnds(text, space)
    ensures Entries(text, space) != []
  {
    EntriesSplit(text, space);
    if Entries(text, space) == [] {
      NoSpansAllSpace(text, space);
    }
  }

  lemma RenderedEnds(pieces: seq<string>, chosen: set<nat>, space: set<char>, rendered: string)
    requires pieces != [] && RequiredIndexes(Edges, |pieces|) <= chosen && rendered == RenderParagraphs(pieces, chosen)
    requires var last := pieces[|pieces| - 1]; last != "" && last[|last| - 1] !in space
    ensures rendered != "" && rendered[|rendered| - 1] !in space
  {
    assert |pieces| - 1 in RequiredIndexes(Edges, |pieces|);
    var front := RenderingEnds(pieces, chosen);
  }

  lemma EntriesEnd(text: string, space: set<char>, spans: seq<Span>, chosen: set<nat>, rendered: string)
    requires SpaceLike(space) && spans == Entries(text, space) && spans != []
    requires rendered == RenderParagraphs(Pieces(text, spans), chosen) && RequiredIndexes(Edges, |spans|) <= chosen
    ensures rendered != "" && rendered[|rendered| - 1] !in space
  {
    var pieces := Pieces(text, spans);
    LastPieceEnds(text, space, spans, pieces);
    RenderedEnds(pieces, chosen, space, rendered);
  }

  lemma SelectedFrom(text: string, space: set<char>, relevance: string -> nat, limit: int, selection: TextSelection)
    requires SpaceLike(space) && selection.Selected?
    requires selection == SelectionOf(text, space, relevance, Edges, limit, true)
    ensures selection.spans == Entries(text, space)
    ensures selection.text == RenderParagraphs(Pieces(text, selection.spans), selection.chosen)
    ensures RequiredIndexes(Edges, |selection.spans|) <= selection.chosen
  {
    SelectionSound(text, space, relevance, Edges, limit, true);
  }

  /** What is selected of a required body ends with something visible. */
  lemma SelectedEnds(text: string, space: set<char>, relevance: string -> nat, limit: int, selection: TextSelection)
    requires SpaceLike(space) && VisibleEnds(text, space)
    requires selection == SelectionOf(text, space, relevance, Edges, limit, true)
    ensures !selection.NothingToSelect?
    ensures selection.Selected? ==> selection.text != "" && selection.text[|selection.text| - 1] !in space
  {
    SomethingToSelect(text, space);
    if selection.Selected? {
      SelectedFrom(text, space, relevance, limit, selection);
      EntriesEnd(text, space, selection.spans, selection.chosen, selection.text);
    }
  }

  lemma HeadingEnds(source: Source, body: string, space: set<char>)
    requires '#' !in space && WellCut(source, space)
    requires body == "" ==> HeadingOf(source) == source.text
    requires body != "" ==> body[|body| - 1] !in space
    ensures VisibleEnds(if body == "" then HeadingOf(source) else HeadingOf(source) + "\n" + body, space)
  {
    assert HeadingOf(source)[0] == '#';
  }

  /** What a selection shows of the body. */
  function Shown(selection: TextSelection, body: string): string {
    match selection
    case WholeText => body
    case Selected(text, _, _) => text
    case _ => ""
  }

  lemma CompactTextShows(r: Rules, source: Source, heading: string, body: string, limit: int, required: bool)
    ensures var compact := CompactText(r, source, heading, body, limit, required);
            var selection := SelectionOf(body, r.space, r.relevance, Edged(required), limit, true);
            && (compact.None? <==> selection.RequiredExceed?)
            && (compact.Some? ==>
                  var shown := Shown(selection, body); compact.value.text == if shown == "" then heading else heading + "\n" + shown)
  {
  }

  lemma ShownEnds(body: string, space: set<char>, relevance: string -> nat, limit: int)
    requires SpaceLike(space) && (body != "" ==> VisibleEnds(body, space))
    ensures var selection := SelectionOf(body, space, relevance, Edges, limit, true);
            var shown := Shown(selection, body);
            && (shown == "" && !selection.RequiredExceed? ==> body == "")
            && (shown != "" ==> shown[|shown| - 1] !in space)
  {
    if body != "" {
      SelectedEnds(body, space, relevance, limit, SelectionOf(body, space, relevance, Edges, limit, true));
    }
  }

  lemma CompactedTextIsVisible(r: Rules, source: Source, body: string, limit: int)
    requires Lawful(r) && WellCut(source, r.space) && body == BodyOf(source, r.space)
    requires CompactText(r, source, HeadingOf(source), body, limit, true).Some?
    ensures var text := CompactText(r, source, HeadingOf(source), body, limit, true).value.text;
            VisibleEnds(text, r.space) && HeadingOf(source) <= text
  {
    var shown := Shown(SelectionOf(body, r.space, r.relevance, Edges, limit, true), body);
    BodyEnds(source, r.space);
    ShownEnds(body, r.space, r.relevance, limit);
    CompactTextShows(r, source, HeadingOf(source), body, limit, true);
    HeadingEnds(source, shown, r.space);
  }

  lemma ShownByTurn(body: string, space: set<char>, relevance: string -> nat, required: bool, limit: int, pieces: seq<string>)
      returns (chosen: set<nat>)
    requires SpaceLike(space) && pieces == Pieces(body, Entries(body, space)) && |body| > limit
    ensures var selection, edges := SelectionOf(body, space, relevance, Edged(required), limit, true), Edged(required);
            var shown := Shown(selection, body);
            && (selection.RequiredExceed? <==> pieces != [] && |RenderParagraphs(pieces, RequiredIndexes(edges, |pieces|))| > limit)
            && (pieces == [] ==> shown == "")
            && (pieces != [] && !selection.RequiredExceed? ==>
                  && shown == RenderParagraphs(pieces, chosen) && AllBelow(chosen, |pieces|)
                  && ParagraphsByTurn(pieces, relevance, true, edges, chosen, limit))
  {
    var edges := Edged(required);
    var selection := SelectionOf(body, space, relevance, edges, limit, true);
    var choice := ChoiceAmong(pieces, relevance, RequiredIndexes(edges, |pieces|), limit, true);
    chosen := if choice.Chosen? then choice.indexes else {};
    RequiredBelow(edges, |pieces|);
    ChoiceFits(pieces, relevance, RequiredIndexes(edges, |pieces|), limit, true);
    ChosenByRelevance(pieces, relevance, true, edges, limit);
  }

  lemma CutsText(r: Rules, source: Source, limit: int, required: bool, spare: nat)
    requires MustBeCut(r, source, limit) && Parsed(r, source).NotJson? && limit == |HeadingOf(source)| + 3 + spare
    ensures CompactSection(r, source, limit, required)
         == CompactText(r, source, HeadingOf(source), BodyOf(source, r.space), limit - |HeadingOf(source)| - 2, required)
  {
  }

  lemma CutTextShows(r: Rules, source: Source, limit: int, required: bool, left: int, spare: nat, selection: TextSelection)
    requires MustBeCut(r, source, limit) && Parsed(r, source).NotJson? && limit == |HeadingOf(source)| + 3 + spare
    requires left == spare + 1
    requires selection == SelectionOf(BodyOf(source, r.space), r.space, r.relevance, Edged(required), left, true)
    ensures var compact := CompactSection(r, source, limit, required);
            && (compact.None? <==> selection.RequiredExceed?)
            && (compact.Some? ==>
                  var shown := Shown(selection, BodyOf(source, r.space));
                  compact.value.text == if shown == "" then HeadingOf(source) else HeadingOf(source) + "\n" + shown)
  {
    CutsText(r, source, limit, required, spare);
    assert limit - |HeadingOf(source)| - 2 == left;
    CompactTextShows(r, source, HeadingOf(source), BodyOf(source, r.space), left, required);
  }

  /** Whether the edges of a required text are too long by themselves. */
  predicate EdgesTooLong(pieces: seq<string>, required: bool, left: int) {
    required && pieces != [] && |RenderParagraphs(pieces, {0, |pieces| - 1})| > left
  }

  lemma NoEdgesFit(pieces: seq<string>, required: bool, left: int)
    requires left >= 0 && pieces != []
    ensures |RenderParagraphs(pieces, RequiredIndexes(Edged(required), |pieces|))| > left <==> EdgesTooLong(pieces, required, left)
  {
    if !required {
      assert RequiredIndexes(Edged(required), |pieces|) == {};
      NothingRendered(pieces, |pieces|);
    }
  }

  lemma {:induction false} NothingRendered(texts: seq<string>, n: nat)
    requires n <= |texts|
    ensures Parts(texts, {}, n) == []
  {
    if n == 0 {
    } else {
      NothingRendered(texts, n - 1);
    }
  }

  /** A section whose body is not JSON and that has to be cut shows its heading and then its whole body if that fits behind
      it, and otherwise whole paragraphs: of a required one the first and the last, and each other one that fits at its
      turn. Cutting fails exactly when the first and the last of a required one are too long. */
  lemma CompactedKeepsParagraphs(r: Rules, source: Source, limit: int, required: bool, left: int, body: string,
                                 pieces: seq<string>) returns (shown: string, chosen: set<nat>)
    requires SpaceLike(r.space) && MustBeCut(r, source, limit) && Parsed(r, source).NotJson?
    requires limit == |HeadingOf(source)| + 2 + left && left >= 1
    requires body == BodyOf(source, r.space) && pieces == Pieces(body, Entries(body, r.space))
    ensures var heading, compact := HeadingOf(source), CompactSection(r, source, limit, required);
            && (compact.None? <==> |body| > left && EdgesTooLong(pieces, required, left))
            && (compact.Some? ==> compact.value.text == if shown == "" then heading else heading + "\n" + shown)
    ensures |body| <= left ==> shown == body
    ensures |body| > left && pieces == [] ==> shown == ""
    ensures |body| > left && pieces != [] && !EdgesTooLong(pieces, required, left) ==>
              && shown == RenderParagraphs(pieces, chosen) && AllBelow(chosen, |pieces|)
              && ParagraphsByTurn(pieces, r.relevance, true, if required then Edges else Indexes({}), chosen, left)
  {
    var selection := SelectionOf(body, r.space, r.relevance, Edged(required), left, true);
    shown, chosen := Shown(selection, body), {};
    CutTextShows(r, source, limit, required, left, left - 1, selection);
    if |body| > left {
      chosen := ShownByTurn(body, r.space, r.relevance, required, left, pieces);
      if pieces != [] {
        NoEdgesFit(pieces, required, left);
      }
    }
  }

  lemma CompactedJsonIsVisible(r: Rules, source: Source, json: Json, limit: int)
    requires Lawful(r) && WellCut(source, r.space) && JsonVisible(json, r.space) && !json.NotJson?
    requires CompactJson(r, source, json, limit, true).Some?
    ensures VisibleEnds(HeadingOf(source) + "\n" + CompactJson(r, source, json, limit, true).value.text, r.space)
  {
    HeadingEnds(source, CompactJson(r, source, json, limit, true).value.text, r.space);
  }

  lemma HeadingFirst(source: Source)
    requires HasHeading(source.text)
    ensures HeadingOf(source) <= source.text
  {
  }

  lemma LongSectionIsVisible(r: Rules, source: Source, limit: int)
    requires Lawful(r) && WellCut(source, r.space) && CompactSection(r, source, limit, true).Some?
    requires MustBeCut(r, source, limit)
    ensures var text := CompactSection(r, source, limit, true).value.text;
            VisibleEnds(text, r.space) && HeadingOf(source) <= text
  {
    var heading, body := HeadingOf(source), BodyOf(source, r.space);
    var json, bodyLimit := Parsed(r, source), limit - |heading| - 2;
    if json.NotJson? {
      CompactedTextIsVisible(r, source, body, bodyLimit);
    } else {
      assert JsonVisible(json, r.space);
      CompactedJsonIsVisible(r, source, json, bodyLimit);
      var tail := CompactJson(r, source, json, bodyLimit, true).value.text;
      assert CompactSection(r, source, limit, true).value.text == heading + "\n" + tail;
    }
  }

  /** A required section, once compacted, begins with its heading and ends with something visible. */
  lemma CompactedIsVisible(r: Rules, source: Source, limit: int)
    requires Lawful(r) && WellCut(source, r.space) && CompactSection(r, source, limit, true).Some?
    ensures var text := CompactSection(r, source, limit, true).value.text;
            VisibleEnds(text, r.space) && (HasHeading(source.text) ==> HeadingOf(source) <= text)
  {
    if MustBeCut(r, source, limit) {
      LongSectionIsVisible(r, source, limit);
    } else if HasHeading(source.text) {
      HeadingFirst(source);
    }
  }
}
