/** What the order of the candidates decides in a merged finding, and what it does not. */
module QualityOrder {
  import opened Common
  import opened QualityDecision

  predicate Permuted(a: seq<Candidate>, b: seq<Candidate>) {
    multiset(a) == multiset(b)
  }

  lemma PermutedMembers(a: seq<Candidate>, b: seq<Candidate>)
    requires Permuted(a, b)
    ensures forall c :: c in a <==> c in b
    ensures |a| == |b|
  {
    assert forall c :: c in a <==> c in multiset(a);
    assert forall c :: c in b <==> c in multiset(b);
    assert |a| == |multiset(a)| == |multiset(b)| == |b|;
  }

  lemma {:induction false} OfCounts(candidates: seq<Candidate>, id: Identity, c: Candidate)
    ensures multiset(Of(candidates, id))[c] == if c.id == id then multiset(candidates)[c] else 0
    decreases |candidates|
  {
    if candidates == [] {
    } else {
      var front, last := candidates[..|candidates| - 1], candidates[|candidates| - 1];
      OfCounts(front, id, c);
      assert candidates == front + [last];
    }
  }

  lemma {:induction false} ItemsWithout(own: seq<Candidate>, j: nat)
    requires j < |own|
    ensures ItemsOf(own) == ItemsOf(own[..j] + own[j + 1..]) + multiset{own[j].Item()}
    decreases |own|
  {
    var n := |own| - 1;
    if j < n {
      ItemsWithout(own[..n], j);
      var rest := own[..j] + own[j + 1..];
      assert rest[..|rest| - 1] == own[..n][..j] + own[..n][j + 1..];
      assert rest[|rest| - 1] == own[n];
    } else {
      assert own[..j] + own[j + 1..] == own[..n];
    }
  }

  lemma {:induction false} ItemsPermute(a: seq<Candidate>, b: seq<Candidate>)
    requires multiset(a) == multiset(b)
    ensures ItemsOf(a) == ItemsOf(b)
    decreases |a|
  {
    assert |a| == |multiset(a)| == |multiset(b)| == |b|;
    if a == [] {
    } else {
      var n := |a| - 1;
      assert a == a[..n] + [a[n]];
      assert a[n] in multiset(b);
      var j :| 0 <= j < |b| && b[j] == a[n];
      assert b == b[..j] + [b[j]] + b[j + 1..];
      assert multiset(b[..j] + b[j + 1..]) == multiset(b) - multiset{b[j]};
      assert multiset(a[..n]) == multiset(a) - multiset{a[n]};
      ItemsPermute(a[..n], b[..j] + b[j + 1..]);
      ItemsWithout(b, j);
    }
  }

  lemma OfPermuted(a: seq<Candidate>, b: seq<Candidate>, id: Identity)
    requires Permuted(a, b)
    ensures Permuted(Of(a, id), Of(b, id))
  {
    forall c ensures multiset(Of(a, id))[c] == multiset(Of(b, id))[c] {
      OfCounts(a, id, c);
      OfCounts(b, id, c);
    }
  }

  // ---------- What the order does not decide ----------

  lemma {:induction false} EvidenceContents(own: seq<Candidate>, x: string)
    ensures x in EvidenceOf(own) <==> exists c | c in own :: x in c.evidence
    decreases |own|
  {
    if own == [] {
    } else {
      var front, last := own[..|own| - 1], own[|own| - 1];
      EvidenceContents(front, x);
      assert own == front + [last];
    }
  }

  lemma SameContents(e: Evidence, e': Evidence)
    requires forall x :: x in e <==> x in e'
    ensures multiset(e) == multiset(e')
  {
    forall x ensures multiset(e)[x] == multiset(e')[x] {
      OnceEach(e, x);
      OnceEach(e', x);
    }
  }

  lemma {:induction false} OnceEach(e: Evidence, x: string)
    ensures multiset(e)[x] == if x in e then 1 else 0
    decreases |e|
  {
    if e == [] {
    } else {
      assert e == e[..|e| - 1] + [e[|e| - 1]];
      OnceEach(e[..|e| - 1], x);
    }
  }

  /** Equal in all that is sorted in the end, and in what is cited. */
  predicate SameButForOrder(f: Finding, g: Finding) {
    && f == g.(category := f.category, repair := f.repair, evidence := f.evidence)
    && multiset(f.evidence) == multiset(g.evidence)
  }

  lemma SameSummary(f: Finding, g: Finding, a: seq<Candidate>, b: seq<Candidate>)
    requires Summarizes(f, a) && Summarizes(g, b) && Permuted(a, b)
    ensures SameButForOrder(f, g)
  {
    PermutedMembers(a, b);
    ItemsPermute(a, b);
    forall x ensures x in f.evidence <==> x in g.evidence {
      EvidenceContents(a, x);
      EvidenceContents(b, x);
    }
    SameContents(f.evidence, g.evidence);
    var c :| c in a && c.Level() == f.severity;
    var d :| d in b && d.Level() == g.severity;
    assert Rank(f.severity) <= Rank(g.severity) && Rank(g.severity) <= Rank(f.severity);
    assert f.severity == g.severity;
  }

  /** The order of the candidates decides neither acceptance nor which findings there are, and in each finding at most
      the category, the repair and the order of the evidence. */
  lemma OrderDoesNotMatter(a: seq<Candidate>, b: seq<Candidate>, id: Identity, threshold: Severity)
    requires Permuted(a, b)
    ensures Accepts(Merge(a), threshold) <==> Accepts(Merge(b), threshold)
    ensures id in Merge(a) <==> id in Merge(b)
    ensures id in Merge(a) ==> SameButForOrder(Merge(a)[id], Merge(b)[id])
  {
    PermutedMembers(a, b);
    AcceptedExactly(a, threshold);
    AcceptedExactly(b, threshold);
    MergeSummarizes(a, id);
    MergeSummarizes(b, id);
    OfPermuted(a, b, id);
    PermutedMembers(Of(a, id), Of(b, id));
    if id in Merge(a) {
      SameSummary(Merge(a)[id], Merge(b)[id], Of(a, id), Of(b, id));
    }
  }

  // ---------- Any candidate may come first ----------

  lemma {:induction false} OfStarts(candidates: seq<Candidate>, id: Identity)
    requires candidates != [] && candidates[0].id == id
    ensures Of(candidates, id) != [] && Of(candidates, id)[0] == candidates[0]
    decreases |candidates|
  {
    if |candidates| == 1 {
    } else {
      OfStarts(candidates[..|candidates| - 1], id);
    }
  }

  /** The candidate at `j` first, the others as they were. */
  function PutFirst(candidates: seq<Candidate>, j: nat): seq<Candidate>
    requires j < |candidates|
  {
    [candidates[j]] + (candidates[..j] + candidates[j + 1..])
  }

  lemma PutFirstPermutes(candidates: seq<Candidate>, j: nat)
    requires j < |candidates|
    ensures Permuted(candidates, PutFirst(candidates, j))
  {
    assert candidates == candidates[..j] + ([candidates[j]] + candidates[j + 1..]);
  }

  /** Any candidate can be put first by reordering; its finding then opens with it. */
  lemma Leads(candidates: seq<Candidate>, c: Candidate) returns (b: seq<Candidate>)
    requires c in candidates
    ensures Permuted(candidates, b) && c.id in Merge(b)
    ensures Of(b, c.id) != [] && Of(b, c.id)[0] == c && Summarizes(Merge(b)[c.id], Of(b, c.id))
  {
    var j :| 0 <= j < |candidates| && candidates[j] == c;
    b := PutFirst(candidates, j);
    PutFirstPermutes(candidates, j);
    OfStarts(b, c.id);
    MergeSummarizes(b, c.id);
  }

  // ---------- What the order does decide ----------

  predicate SameCategory(a: seq<Candidate>, b: seq<Candidate>, id: Identity) {
    id in Merge(a) && id in Merge(b) && Merge(a)[id].category == Merge(b)[id].category
  }

  predicate SameRepair(a: seq<Candidate>, b: seq<Candidate>, id: Identity) {
    id in Merge(a) && id in Merge(b) && Merge(a)[id].repair == Merge(b)[id].repair
  }

  predicate SameEvidence(a: seq<Candidate>, b: seq<Candidate>, id: Identity) {
    id in Merge(a) && id in Merge(b) && Merge(a)[id].evidence == Merge(b)[id].evidence
  }

  lemma BothSummarized(a: seq<Candidate>, b: seq<Candidate>, id: Identity)
    requires Permuted(a, b) && id in Merge(a)
    ensures id in Merge(b)
    ensures Summarizes(Merge(a)[id], Of(a, id)) && Summarizes(Merge(b)[id], Of(b, id))
    ensures forall c :: c in Of(a, id) <==> c in a && c.id == id
    ensures forall c :: c in Of(b, id) <==> c in a && c.id == id
  {
    MergeSummarizes(a, id);
    MergeSummarizes(b, id);
    OfMembers(a, id);
    OfPermuted(a, b, id);
    PermutedMembers(Of(a, id), Of(b, id));
  }

  /** The candidates of `id` agree on the category. */
  predicate OneCategory(a: seq<Candidate>, id: Identity) {
    forall c, d | c in a && d in a && c.id == id && d.id == id :: c.Category() == d.Category()
  }

  /** No reordering changes the category exactly when all candidates of the finding name the same one. */
  lemma CategoryStableExactly(a: seq<Candidate>, id: Identity)
    requires id in Merge(a)
    ensures (forall b | Permuted(a, b) :: SameCategory(a, b, id)) <==> OneCategory(a, id)
  {
    if forall b | Permuted(a, b) :: SameCategory(a, b, id) {
      forall c | c in a && c.id == id ensures c.Category() == Merge(a)[id].category {
        var b := Leads(a, c);
        assert SameCategory(a, b, id);
      }
    } else {
      var b :| Permuted(a, b) && !SameCategory(a, b, id);
      BothSummarized(a, b, id);
      assert Of(a, id)[0] in Of(a, id) && Of(b, id)[0] in Of(b, id);
    }
  }

  /** The candidate's repair can be the one kept: it is its own, or all of them ask for manual review. */
  predicate Eligible(c: Candidate, a: seq<Candidate>) {
    c in a && (c.repair.action != MANUAL || forall d | d in a && d.id == c.id :: d.repair.action == MANUAL)
  }

  predicate OneRepair(a: seq<Candidate>, id: Identity) {
    forall c, d | c in a && d in a && c.id == id && d.id == id && Eligible(c, a) && Eligible(d, a) :: c.repair == d.repair
  }

  /** The repair kept is that of an eligible candidate, of the first candidate if that one is eligible. */
  lemma {:induction false} RepairKept(own: seq<Candidate>, id: Identity)
    requires own != [] && forall c | c in own :: c.id == id
    ensures exists c :: Eligible(c, own) && c.repair == RepairOf(own)
    ensures Eligible(own[0], own) ==> RepairOf(own) == own[0].repair
    decreases |own|
  {
    var front, last := own[..|own| - 1], own[|own| - 1];
    if front == [] {
      assert Eligible(own[0], own);
    } else {
      assert own == front + [last];
      RepairKept(front, id);
      var c :| Eligible(c, front) && c.repair == RepairOf(front);
      assert Eligible(if RepairOf(own) == RepairOf(front) then c else last, own);
    }
  }

  /** No reordering changes the repair exactly when all candidates that could supply it supply the same. */
  lemma RepairStableExactly(a: seq<Candidate>, id: Identity)
    requires id in Merge(a)
    ensures (forall b | Permuted(a, b) :: SameRepair(a, b, id)) <==> OneRepair(a, id)
  {
    if forall b | Permuted(a, b) :: SameRepair(a, b, id) {
      forall c | Eligible(c, a) && c.id == id ensures c.repair == Merge(a)[id].repair {
        var b := Leads(a, c);
        BothSummarized(a, b, id);
        RepairKept(Of(b, id), id);
        assert SameRepair(a, b, id);
      }
    } else {
      var b :| Permuted(a, b) && !SameRepair(a, b, id);
      BothSummarized(a, b, id);
      RepairKept(Of(a, id), id);
      RepairKept(Of(b, id), id);
      var c :| Eligible(c, Of(a, id)) && c.repair == RepairOf(Of(a, id));
      var d :| Eligible(d, Of(b, id)) && d.repair == RepairOf(Of(b, id));
      assert Eligible(c, a) && Eligible(d, a);
    }
  }

  /** Of any two candidates of `id` one cites what the other cites, in the same order, and possibly more after it. */
  predicate Chained(a: seq<Candidate>, id: Identity) {
    forall c, d | c in a && d in a && c.id == id && d.id == id && |c.evidence| <= |d.evidence| :: c.evidence <= d.evidence
  }

  lemma {:induction false} JoinKnown(items: Evidence, more: seq<string>)
    requires forall x | x in more :: x in items
    ensures Join(items, more) == items
    decreases |more|
  {
    if more == [] {
    } else {
      JoinKnown(items, more[1..]);
    }
  }

  lemma {:induction false} JoinPrefix(done: Evidence, shared: seq<string>, rest: seq<string>)
    requires NoRepeats(done + rest) && forall x | x in shared :: x in done
    ensures Join(done, shared + rest) == done + rest
    decreases |shared|
  {
    if shared == [] {
      assert shared + rest == rest;
      JoinAppends(done, rest);
    } else {
      assert (shared + rest)[0] == shared[0] && (shared + rest)[1..] == shared[1..] + rest;
      JoinPrefix(done, shared[1..], rest);
    }
  }

  lemma {:induction false} FirstCitedFirst(own: seq<Candidate>)
    requires own != []
    ensures own[0].evidence <= EvidenceOf(own)
    decreases |own|
  {
    var front, last := own[..|own| - 1], own[|own| - 1];
    if front == [] {
      assert [] + last.evidence == last.evidence;
      JoinAppends([], last.evidence);
    } else {
      FirstCitedFirst(front);
    }
  }

  /** A candidate whose evidence continues everything cited so far takes over; one that adds nothing changes nothing. */
  lemma JoinChained(items: Evidence, more: Evidence)
    requires items <= more || more <= items
    ensures Join(items, more) == if |items| <= |more| then more else items
  {
    if items <= more {
      assert more == items + more[|items|..];
      JoinPrefix(items, items, more[|items|..]);
    } else {
      JoinKnown(items, more);
    }
  }

  /** Chained evidence merges into the longest list. */
  lemma {:induction false} LongestCited(own: seq<Candidate>, id: Identity)
    requires own != [] && Chained(own, id) && forall c | c in own :: c.id == id
    ensures exists c | c in own :: c.evidence == EvidenceOf(own)
    ensures forall c | c in own :: c.evidence <= EvidenceOf(own)
    decreases |own|
  {
    var front, last := own[..|own| - 1], own[|own| - 1];
    assert own == front + [last];
    if front == [] {
      JoinChained([], last.evidence);
      assert EvidenceOf(front) == [] && own[0] in own;
    } else {
      LongestCited(front, id);
      var c :| c in front && c.evidence == EvidenceOf(front);
      assert c in own && last in own;
      JoinChained(c.evidence, last.evidence);
      assert (if |c.evidence| <= |last.evidence| then last else c).evidence == EvidenceOf(own);
    }
  }

  lemma ChainedAgree(own: seq<Candidate>, own': seq<Candidate>, id: Identity)
    requires own != [] && own' != [] && Chained(own, id) && forall c | c in own :: c.id == id
    requires forall c :: c in own <==> c in own'
    ensures EvidenceOf(own) == EvidenceOf(own')
  {
    LongestCited(own, id);
    LongestCited(own', id);
    var c :| c in own && c.evidence == EvidenceOf(own);
    var d :| d in own' && d.evidence == EvidenceOf(own');
    assert c in own' && d in own;
  }

  /** No reordering changes the list of evidence exactly when the candidates' lists continue one another. */
  lemma EvidenceStableExactly(a: seq<Candidate>, id: Identity)
    requires id in Merge(a)
    ensures (forall b | Permuted(a, b) :: SameEvidence(a, b, id)) <==> Chained(a, id)
  {
    if forall b | Permuted(a, b) :: SameEvidence(a, b, id) {
      forall c | c in a && c.id == id ensures c.evidence <= Merge(a)[id].evidence {
        var b := Leads(a, c);
        FirstCitedFirst(Of(b, id));
        assert SameEvidence(a, b, id);
      }
    } else if Chained(a, id) {
      forall b | Permuted(a, b) ensures SameEvidence(a, b, id) {
        BothSummarized(a, b, id);
        ChainedAgree(Of(a, id), Of(b, id), id);
      }
    }
  }

  // ---------- Both happen ----------

  lemma MergeTwo(c: Candidate, d: Candidate)
    requires c.id == d.id
    ensures c.id in Merge([c, d]) && Merge([c, d])[c.id] == Absorb(First(c), d)
  {
    assert [c, d][..1] == [c];
    assert Merge([c]) == Merge([])[c.id := First(c)];
    assert Merge([c, d]) == Merge([c])[d.id := Absorb(First(c), d)];
  }

  /** Two candidates of one identity that name different categories and repairs and cite different things first:
      all three follow whichever comes first. */
  lemma OrderDecides(c: Candidate, d: Candidate)
    requires c.id == d.id && c.Category() != d.Category() && c.repair != d.repair
    requires c.repair.action != MANUAL && d.repair.action != MANUAL
    requires c.evidence != [] && d.evidence != [] && c.evidence[0] != d.evidence[0]
    ensures Permuted([c, d], [d, c])
    ensures !SameCategory([c, d], [d, c], c.id) && !SameRepair([c, d], [d, c], c.id) && !SameEvidence([c, d], [d, c], c.id)
  {
    MergeTwo(c, d);
    MergeTwo(d, c);
    FirstIsKept(c, d);
    FirstIsKept(d, c);
  }

  lemma FirstIsKept(c: Candidate, d: Candidate)
    requires c.repair.action != MANUAL && c.evidence != []
    ensures var f := Absorb(First(c), d);
            f.category == c.Category() && f.repair == c.repair && f.evidence != [] && f.evidence[0] == c.evidence[0]
  {
    assert Join(c.evidence, d.evidence)[..|c.evidence|] == c.evidence;
  }

  const LENGTH_OF_CHAPTER_THREE := Identity("chapter", "chapter_length", "chapter:3", "chapter_length")

  const TOO_SHORT := Candidate(LENGTH_OF_CHAPTER_THREE, "", Some(Warning), "chapter_too_short", "base_validation",
                               "validation_result", ["900 words"], Repair("expand_chapter", "{}"), Coverage({}, {}, {}))

  const SHORT_PACING := Candidate(LENGTH_OF_CHAPTER_THREE, "pacing", Some(Blocking), "short_chapter", "base_validation",
                                  "validation_result", ["target 1200 words"], Repair("rewrite_chapter", "{}"),
                                  Coverage({}, {}, {}))

  /** Two problems of one validation, whose codes belong to the same family. */
  lemma OrderDecidesForTwoProblems()
    ensures Permuted([TOO_SHORT, SHORT_PACING], [SHORT_PACING, TOO_SHORT])
    ensures !SameCategory([TOO_SHORT, SHORT_PACING], [SHORT_PACING, TOO_SHORT], LENGTH_OF_CHAPTER_THREE)
    ensures !SameRepair([TOO_SHORT, SHORT_PACING], [SHORT_PACING, TOO_SHORT], LENGTH_OF_CHAPTER_THREE)
    ensures !SameEvidence([TOO_SHORT, SHORT_PACING], [SHORT_PACING, TOO_SHORT], LENGTH_OF_CHAPTER_THREE)
  {
    assert TOO_SHORT.evidence[0][0] != SHORT_PACING.evidence[0][0];
    assert TOO_SHORT.repair.action[0] != SHORT_PACING.repair.action[0];
    OrderDecides(TOO_SHORT, SHORT_PACING);
  }
}
