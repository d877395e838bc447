/** Choosing prompt sections for a stage, and searching for the largest authority section that still fits. */
module PromptCompiler {
  import opened Common
  import opened Selection

  const HEADROOM := 512

  /** What is left for a stage once protocol texts will be added to the request. */
  function StageInputLimit(hardLimit: int, hasProtocolTexts: bool): int {
    if hasProtocolTexts then Max(1, hardLimit - HEADROOM) else hardLimit
  }

  /** One section list, the query terms that each section matches, and what rendering and measuring a choice of it yields. */
  datatype Stage = Stage(names: seq<string>, relevance: seq<nat>, render: set<nat> -> string, tokens: string -> nat,
                         hardLimit: int, inputLimit: int)
  {
    predicate Fits(chosen: set<nat>) {
      tokens(render(chosen)) <= hardLimit && tokens(render(chosen)) <= Min(hardLimit, inputLimit)
    }
  }

  function IndexesOf(names: seq<string>, wanted: set<string>, n: nat): (r: set<nat>)
    requires n <= |names|
    ensures forall i: nat :: i in r <==> i < n && names[i] in wanted
  {
    if n == 0 then {} else IndexesOf(names, wanted, n - 1) + if names[n - 1] in wanted then {n - 1} else {}
  }

  /** The indexes of the required sections that are there at all. */
  function RequiredOf(stage: Stage, required: set<string>): (r: set<nat>)
    ensures forall i: nat :: i in r <==> i < |stage.names| && stage.names[i] in required
  {
    IndexesOf(stage.names, required, |stage.names|)
  }

  /** The indexes below `n` of the preferred sections that are not required, in order. */
  function OptionalOf(stage: Stage, required: set<string>, preferred: set<string>, n: nat): (r: seq<nat>)
    requires n <= |stage.names|
    ensures forall i: nat :: i in r <==> i < n && stage.names[i] in preferred && stage.names[i] !in required
    ensures forall p, q | 0 <= p < q < |r| :: r[p] < r[q]
  {
    if n == 0 then []
    else
      var before := OptionalOf(stage, required, preferred, n - 1);
      if stage.names[n - 1] in preferred && stage.names[n - 1] !in required then
        assert forall p | 0 <= p < |before| :: before[p] in before;
        before + [n - 1]
      else before
  }

  /** What is chosen when these places among the optional sections are. */
  function With(required: set<nat>, optional: seq<nat>, places: set<nat>): (r: set<nat>)
    ensures required <= r && forall i | i in r :: i in required || i in optional
  {
    required + set p | p in places && p < |optional| :: optional[p]
  }

  /** Exactly these section lists compile. */
  predicate Compiles(stage: Stage, required: set<string>) {
    stage.Fits(RequiredOf(stage, required))
  }

  /** Required sections are complete, every other one is a preferred one, and all of it fits. */
  predicate Acceptable(stage: Stage, required: set<string>, preferred: set<string>, chosen: set<nat>) {
    && stage.Fits(chosen) && RequiredOf(stage, required) <= chosen
    && forall i | i in chosen :: i < |stage.names| && (stage.names[i] in required || stage.names[i] in preferred)
  }

  datatype Compiled = Compiled(text: string, chosen: set<nat>) | OverBudget

  /** Nothing if these places can be had, and something if not. */
  function Excess(stage: Stage, required: set<string>, optional: seq<nat>): Cost {
    places => if stage.Fits(With(RequiredOf(stage, required), optional, places)) then 0 else 1
  }

  /** The query terms that each of these sections matches. */
  function TermsIn(stage: Stage, optional: seq<nat>): (terms: seq<nat>)
    ensures |terms| == |optional|
    ensures forall q: nat | q < |optional| && optional[q] < |stage.relevance| :: terms[q] == stage.relevance[optional[q]]
  {
    seq<nat>(|optional|, q requires 0 <= q < |optional| =>
      if optional[q] < |stage.relevance| then stage.relevance[optional[q]] else 0)
  }

  /** The optional section at place `p` fits with the required ones and all that were chosen before it; a section that
      matches more terms comes before one that matches fewer, and of equals the later one first. */
  predicate FitsAtTurn(stage: Stage, required: set<string>, optional: seq<nat>, chosen: set<nat>, p: nat)
    requires p < |optional|
  {
    var terms := TermsIn(stage, optional);
    var before := set q: nat | q < |optional| && optional[q] in chosen && TurnsBefore(terms, true, q, p);
    stage.Fits(With(RequiredOf(stage, required), optional, before + {p}))
  }

  /** The required sections are in, and every optional one exactly when it fitted at its turn. */
  ghost predicate ByTurn(stage: Stage, required: set<string>, preferred: set<string>, chosen: set<nat>) {
    var optional := OptionalOf(stage, required, preferred, |stage.names|);
    && (forall i: nat | i < |stage.names| && stage.names[i] in required :: i in chosen)
    && forall p: nat | p < |optional| :: optional[p] in chosen <==> FitsAtTurn(stage, required, optional, chosen, p)
  }

  lemma PlacesAreChosen(stage: Stage, required: set<string>, preferred: set<string>, optional: seq<nat>, places: set<nat>, p: nat)
    requires optional == OptionalOf(stage, required, preferred, |stage.names|) && p < |optional|
    ensures optional[p] in With(RequiredOf(stage, required), optional, places) <==> p in places
  {
    assert optional[p] in optional;
  }

  lemma PlaceByTurn(stage: Stage, required: set<string>, preferred: set<string>, optional: seq<nat>, terms: seq<nat>,
                    places: set<nat>, chosen: set<nat>, p: nat)
    requires optional == OptionalOf(stage, required, preferred, |stage.names|)
    requires terms == TermsIn(stage, optional)
    requires chosen == With(RequiredOf(stage, required), optional, places) && p < |optional|
    ensures optional[p] in chosen <==> p in places
    ensures FitsAtTurn(stage, required, optional, chosen, p)
            <==> Excess(stage, required, optional)(AtTurn({}, terms, true, places, p) + {p}) <= 0
  {
    forall q: nat | q < |optional| ensures optional[q] in chosen <==> q in places {
      PlacesAreChosen(stage, required, preferred, optional, places, q);
    }
    assert AtTurn({}, terms, true, places, p) == set q: nat | q < |optional| && optional[q] in chosen && TurnsBefore(terms, true, q, p);
  }

  lemma PlacesByTurn(stage: Stage, required: set<string>, preferred: set<string>, optional: seq<nat>, terms: seq<nat>,
                     places: set<nat>)
    requires optional == OptionalOf(stage, required, preferred, |stage.names|)
    requires terms == TermsIn(stage, optional)
    requires PickedByTurn(Excess(stage, required, optional), {}, terms, true, places, 0, None)
    ensures ByTurn(stage, required, preferred, With(RequiredOf(stage, required), optional, places))
  {
    var chosen := With(RequiredOf(stage, required), optional, places);
    forall p: nat | p < |optional| ensures optional[p] in chosen <==> FitsAtTurn(stage, required, optional, chosen, p) {
      PlaceByTurn(stage, required, preferred, optional, terms, places, chosen, p);
    }
  }

  lemma WithoutOptional(stage: Stage, required: set<string>, optional: seq<nat>)
    ensures Excess(stage, required, optional)({}) <= 0 <==> Compiles(stage, required)
  {
    assert With(RequiredOf(stage, required), optional, {}) == RequiredOf(stage, required);
  }

  lemma FitsWith(stage: Stage, required: set<string>, optional: seq<nat>, places: set<nat>)
    ensures Excess(stage, required, optional)(places) <= 0 <==> stage.Fits(With(RequiredOf(stage, required), optional, places))
  {
  }

  lemma ChoiceIsAcceptable(stage: Stage, required: set<string>, preferred: set<string>, optional: seq<nat>, terms: seq<nat>,
                           choice: Chosen)
    requires optional == OptionalOf(stage, required, preferred, |stage.names|) && terms == TermsIn(stage, optional)
    requires choice == Choose(Excess(stage, required, optional), {}, Order(terms, true, |terms|), 0, None)
    ensures choice.Chosen? <==> Compiles(stage, required)
    ensures choice.Chosen? ==>
              var chosen := With(RequiredOf(stage, required), optional, choice.indexes);
              Acceptable(stage, required, preferred, chosen) && ByTurn(stage, required, preferred, chosen)
  {
    var excess := Excess(stage, required, optional);
    WithoutOptional(stage, required, optional);
    ChosenByTurn(excess, {}, terms, true, 0, None);
    if choice.Chosen? {
      PlacesByTurn(stage, required, preferred, optional, terms, choice.indexes);
      FitsWith(stage, required, optional, choice.indexes);
      OnlyOptional(stage, required, preferred, optional, With(RequiredOf(stage, required), optional, choice.indexes));
    }
  }

  lemma OnlyOptional(stage: Stage, required: set<string>, preferred: set<string>, optional: seq<nat>, chosen: set<nat>)
    requires optional == OptionalOf(stage, required, preferred, |stage.names|) && stage.Fits(chosen)
    requires RequiredOf(stage, required) <= chosen
    requires forall i | i in chosen :: i in RequiredOf(stage, required) || i in optional
    ensures Acceptable(stage, required, preferred, chosen)
  {
    forall i | i in chosen
      ensures i < |stage.names| && (stage.names[i] in required || stage.names[i] in preferred)
    {
      assert i in RequiredOf(stage, required) || i in optional;
    }
  }

  /** Walks the preferred sections, best first, and keeps each one that still fits. */
  method CompileStage(stage: Stage, required: set<string>, preferred: set<string>) returns (result: Compiled)
    ensures result.Compiled? <==> Compiles(stage, required)
    ensures result.Compiled? ==>
              && result.text == stage.render(result.chosen)
              && Acceptable(stage, required, preferred, result.chosen)
              && ByTurn(stage, required, preferred, result.chosen)
  {
    var kept, optional := RequiredOf(stage, required), OptionalOf(stage, required, preferred, |stage.names|);
    var terms := TermsIn(stage, optional);
    OrderIsRanking(terms, true, |terms|);
    var choice := ChooseIndexes(Excess(stage, required, optional), {}, Order(terms, true, |terms|), 0, None);
    ChoiceIsAcceptable(stage, required, preferred, optional, terms, choice);
    if !choice.Chosen? {
      return OverBudget;
    }
    var chosen := With(kept, optional, choice.indexes);
    return Compiled(stage.render(chosen), chosen);
  }

  // ---------- Searching for the authority limit ----------

  /** Compacting the sources to a limit: the section list, too small a limit, or another failure. */
  datatype Compaction = Sections(stage: Stage) | TooSmall | Broken

  predicate TooBig(probe: Compaction, required: set<string>) {
    probe.Sections? && !Compiles(probe.stage, required)
  }

  predicate Works(probe: Compaction, required: set<string>) {
    probe.Sections? && Compiles(probe.stage, required)
  }

  /** Limits that are too small lie below all others, and limits that are too big above all others. */
  ghost predicate Ordered(compact: int -> Compaction, required: set<string>, cap: int) {
    && (forall l, m | 1 <= l < m < cap && compact(m).TooSmall? :: compact(l).TooSmall?)
    && (forall l, m | 1 <= m < l < cap && TooBig(compact(m), required) :: TooBig(compact(l), required))
    && (forall l | 1 <= l < cap :: !compact(l).Broken?)
  }

  datatype Found = Best(limit: int) | Nothing | Abandoned(limit: int)

  /** The three-way search over the limits below `cap`. */
  method SearchLimit(compact: int -> Compaction, required: set<string>, cap: int) returns (found: Found)
    ensures found.Best? ==> 1 <= found.limit < cap && Works(compact(found.limit), required)
    ensures found.Abandoned? ==> 1 <= found.limit < cap && compact(found.limit).Broken?
    ensures Ordered(compact, required, cap) ==>
              match found
              case Best(limit) => forall l | limit < l < cap :: !Works(compact(l), required)
              case Nothing => forall l | 1 <= l < cap :: !Works(compact(l), required)
              case Abandoned(_) => false
  {
    var low, high := 1, cap - 1;
    found := Nothing;
    while low <= high
      invariant 1 <= low && high < cap && !found.Abandoned?
      invariant found.Best? ==> 1 <= found.limit < low && found.limit < cap && Works(compact(found.limit), required)
      invariant Ordered(compact, required, cap) ==>
                  forall l | 1 <= l < cap && Works(compact(l), required) ::
                    (low <= l <= high) || (found.Best? && l <= found.limit)
      decreases high - low + 1
    {
      var middle := (low + high) / 2;
      var probe := compact(middle);
      match probe
      case TooSmall => low := middle + 1;
      case Broken => return Abandoned(middle);
      case Sections(stage) =>
        if Compiles(stage, required) {
          found := Best(middle);
          low := middle + 1;
        } else {
          high := middle - 1;
        }
    }
  }

  datatype Outcome = Ready(text: string, chosen: set<nat>, stage: Stage) | Failed | Raised

  /** The initial sections if they compile; otherwise, when protocol texts and an authority section allow it,
      the largest authority limit that does. Whatever is returned fits and has every available required section. */
  method CompileWithDynamicAuthority(initial: Stage, compact: int -> Compaction, cap: int, required: set<string>,
                                     preferred: set<string>, hasProtocolTexts: bool, hasAuthority: bool)
      returns (outcome: Outcome)
    ensures outcome.Ready? ==>
              && outcome.text == outcome.stage.render(outcome.chosen)
              && Acceptable(outcome.stage, required, preferred, outcome.chosen)
              && ByTurn(outcome.stage, required, preferred, outcome.chosen)
              && (outcome.stage == initial
                  || (!Compiles(initial, required)
                      && exists l :: 1 <= l < cap && compact(l) == Sections(outcome.stage)
                                     && (Ordered(compact, required, cap) ==>
                                           forall m | l < m < cap :: !Works(compact(m), required))))
    ensures Compiles(initial, required) ==> outcome.Ready? && outcome.stage == initial
    ensures !Compiles(initial, required) && !(hasProtocolTexts && hasAuthority) ==> outcome.Failed?
    ensures outcome.Raised? ==> !Ordered(compact, required, cap) && exists l :: 1 <= l < cap && compact(l).Broken?
    ensures outcome.Failed? ==>
              && !Compiles(initial, required)
              && (hasProtocolTexts && hasAuthority && Ordered(compact, required, cap) ==>
                    forall l | 1 <= l < cap :: !Works(compact(l), required))
  {
    var first := CompileStage(initial, required, preferred);
    if first.Compiled? {
      return Ready(first.text, first.chosen, initial);
    }
    if !hasProtocolTexts || !hasAuthority {
      return Failed;
    }
    var found := SearchLimit(compact, required, cap);
    match found
    case Nothing => return Failed;
    case Abandoned(limit) =>
      assert compact(limit).Broken?;
      return Raised;
    case Best(limit) =>
      var stage := compact(limit).stage;
      var best := CompileStage(stage, required, preferred);
      return Ready(best.text, best.chosen, stage);
  }

  /** With protocol texts a choice fits exactly when it leaves the headroom free, or, under a limit no larger than that,
      when it takes one token at most; without them, when it is within the limit. */
  lemma HeadroomKept(stage: Stage, chosen: set<nat>, hasProtocolTexts: bool)
    requires stage.inputLimit == StageInputLimit(stage.hardLimit, hasProtocolTexts)
    ensures var taken := stage.tokens(stage.render(chosen));
            stage.Fits(chosen) <==>
              && taken <= stage.hardLimit
              && (hasProtocolTexts ==> taken + 512 <= stage.hardLimit || (stage.hardLimit <= 512 && taken <= 1))
  {
  }
}
