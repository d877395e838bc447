/** On which texts a paragraph selection may leave out a paragraph that would still fit. */
module ParagraphMaximality {
  import opened Selection
  import opened Renderers
  import opened Paragraphs

  /** No paragraph left out of a selection would be within the limit with it. */
  predicate LeavesNothing(text: string, selection: TextSelection, maxChars: int) {
    selection.Selected? ==> NothingLeftFits(Pieces(text, selection.spans), selection.chosen, maxChars)
  }

  /** Whatever the query, the required paragraphs, the limit and the preference. */
  ghost predicate AlwaysMaximal(text: string, space: set<char>) {
    forall relevance: string -> nat, required: Required, maxChars: int, preferRecent: bool | maxChars >= 1 ::
      LeavesNothing(text, SelectionOf(text, space, relevance, required, maxChars, preferRecent), maxChars)
  }

  function PiecesOf(text: string, space: set<char>): seq<string> {
    Pieces(text, Entries(text, space))
  }

  /** The text is longer than all of its paragraphs rendered. */
  predicate Loose(text: string, space: set<char>) {
    var pieces := PiecesOf(text, space); |text| > |RenderParagraphs(pieces, UpTo(|pieces|))|
  }

  /** Enough for every text: around each short paragraph inside, no limit that leads to a selection admits the three
      neighbours. */
  lemma CrowdedTextsAreMaximal(text: string, space: set<char>)
    requires SpaceLike(space) && ShortOnesCrowded(PiecesOf(text, space), |text| - 1)
    ensures AlwaysMaximal(text, space)
  {
    forall relevance: string -> nat, required: Required, maxChars: int, preferRecent: bool | maxChars >= 1
      ensures LeavesNothing(text, SelectionOf(text, space, relevance, required, maxChars, preferRecent), maxChars)
    {
      SelectionSound(text, space, relevance, required, maxChars, preferRecent);
    }
  }

  lemma OneFailure(text: string, space: set<char>, relevance: string -> nat, required: Required, maxChars: int,
                   preferRecent: bool)
    requires maxChars >= 1
    requires !LeavesNothing(text, SelectionOf(text, space, relevance, required, maxChars, preferRecent), maxChars)
    ensures !AlwaysMaximal(text, space)
  {
  }

  /** The selection as far as it depends on the paragraphs. */
  lemma SelectionIsMaximal(text: string, space: set<char>, relevance: string -> nat, kept: set<nat>, maxChars: int,
                           pieces: seq<string>)
    requires |text| > maxChars && pieces == PiecesOf(text, space) && pieces != [] && AllBelow(kept, |pieces|)
    requires |RenderParagraphs(pieces, kept)| <= maxChars
    ensures LeavesNothing(text, SelectionOf(text, space, relevance, Indexes(kept), maxChars, true), maxChars)
            <==> Maximal(pieces, Relevances(relevance, pieces), true, kept, maxChars)
  {
    assert RequiredIndexes(Indexes(kept), |pieces|) == kept;
  }

  /** An empty query matches nothing. */
  lemma EmptyQueryFails(text: string, space: set<char>, kept: set<nat>, maxChars: int, pieces: seq<string>,
                        none: seq<nat>)
    requires |text| > maxChars >= 1 && pieces == PiecesOf(text, space) && pieces != [] && AllBelow(kept, |pieces|)
    requires |RenderParagraphs(pieces, kept)| <= maxChars
    requires |none| == |pieces| && forall k | 0 <= k < |none| :: none[k] == 0
    requires !Maximal(pieces, none, true, kept, maxChars)
    ensures !AlwaysMaximal(text, space)
  {
    var relevance: string -> nat := _ => 0;
    assert Relevances(relevance, pieces) == none;
    SelectionIsMaximal(text, space, relevance, kept, maxChars, pieces);
    OneFailure(text, space, relevance, Indexes(kept), maxChars, true);
  }

  /** A limit of exactly the full rendering is reached on a loose text, and the last short paragraph spoils it. */
  lemma LooseShortFails(text: string, space: set<char>, i: nat)
    requires Loose(text, space) && 0 < i < |PiecesOf(text, space)| - 1
    requires var pieces := PiecesOf(text, space);
             |pieces[i]| < |MARKER| && forall k | i < k < |pieces| - 1 :: |pieces[k]| >= |MARKER|
    ensures !AlwaysMaximal(text, space)
  {
    var pieces := PiecesOf(text, space);
    var all := UpTo(|pieces|);
    ShortInsideIsNotMaximal(pieces, i);
    NeighboursFit(pieces, all, i);
    EmptyQueryFails(text, space, all - {i, i + 1}, |RenderParagraphs(pieces, all)|, pieces, seq(|pieces|, _ => 0));
  }

  /** On loose texts the selection never leaves out what would fit exactly when no paragraph inside is shorter than the
      marker. */
  lemma MaximalExactly(text: string, space: set<char>)
    requires SpaceLike(space) && Loose(text, space)
    ensures AlwaysMaximal(text, space) <==> LongInside(PiecesOf(text, space))
  {
    var pieces := PiecesOf(text, space);
    if LongInside(pieces) {
      CrowdedTextsAreMaximal(text, space);
    } else {
      LooseShortFails(text, space, LastShort(pieces, |pieces| - 1));
    }
  }

  /** With three paragraphs, or fewer, the other texts never fail: this is then the exact condition for every text. */
  lemma ThreeAreMaximalExactly(text: string, space: set<char>)
    requires SpaceLike(space) && |PiecesOf(text, space)| <= 3
    ensures AlwaysMaximal(text, space) <==> LongInside(PiecesOf(text, space)) || !Loose(text, space)
  {
    var pieces := PiecesOf(text, space);
    if Loose(text, space) {
      MaximalExactly(text, space);
    } else {
      if |pieces| == 3 {
        AllThree(pieces);
      }
      CrowdedTextsAreMaximal(text, space);
    }
  }

  lemma AllThree(pieces: seq<string>)
    requires |pieces| == 3
    ensures |RenderParagraphs(pieces, UpTo(3))| == AroundLength(pieces, 1)
  {
    PartsLength(pieces, UpTo(3), 1);
    PartsLength(pieces, UpTo(3), 2);
    PartsLength(pieces, UpTo(3), 3);
  }
}
