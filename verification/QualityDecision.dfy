/** Merging quality findings by identity and deciding whether a chapter is accepted. */
module QualityDecision {
  import opened Common

  datatype Severity = Info | Warning | NeedsRevision | Blocking

  function Rank(s: Severity): nat {
    match s
    case Info => 0
    case Warning => 1
    case NeedsRevision => 2
    case Blocking => 3
  }

  function Higher(a: Severity, b: Severity): Severity {
    if Rank(b) > Rank(a) then b else a
  }

  datatype Coverage = Coverage(requested: set<string>, executed: set<string>, skipped: set<string>)

  function MergeCoverage(a: Coverage, b: Coverage): Coverage {
    Coverage(a.requested + b.requested, a.executed + b.executed, a.skipped + b.skipped)
  }

  /** What findings are merged by: subject, predicate, time range and the family of the code. */
  datatype Identity = Identity(subject: string, predicateName: string, timeRange: string, family: string)

  datatype Repair = Repair(action: string, parameters: string)

  const MANUAL := "manual_review"

  /** Evidence as normalized: a list in which nothing is said twice. */
  type Evidence = items: seq<string> | NoRepeats(items) witness []

  /** `severity` is absent when it is missing or unknown, `category` is empty when it is missing. */
  datatype Candidate = Candidate(id: Identity, category: string, severity: Option<Severity>, code: string,
                                 producer: string, source: string, evidence: Evidence, repair: Repair, coverage: Coverage)
  {
    function Level(): Severity {
      severity.GetOr(NeedsRevision)
    }

    function Category(): string {
      if category == "" then id.family else category
    }

    function Item(): ProducerItem {
      ProducerItem(producer, code, source, evidence)
    }
  }

  datatype ProducerItem = ProducerItem(producer: string, code: string, source: string, evidence: Evidence)

  /** Codes, sources and producer items are sorted in the end, so only their contents matter; evidence keeps its order. */
  datatype Finding = Finding(category: string, severity: Severity, blocking: bool, codes: set<string>,
                             sources: set<string>, items: multiset<ProducerItem>, evidence: Evidence, coverage: Coverage,
                             repair: Repair)

  type Merged = map<Identity, Finding>

  /** Items not there yet are appended in order. */
  function Join(items: Evidence, more: seq<string>): (joined: Evidence)
    ensures items <= joined
    ensures forall x :: x in joined <==> x in items || x in more
    decreases |more|
  {
    if more == [] then items
    else if more[0] in items then Join(items, more[1..])
    else Join(items + [more[0]], more[1..])
  }

  function First(c: Candidate): Finding {
    Finding(c.Category(), c.Level(), c.Level() == Blocking, {c.code}, {c.source}, multiset{c.Item()}, c.evidence, c.coverage, c.repair)
  }

  function Absorb(f: Finding, c: Candidate): Finding {
    var severity := Higher(f.severity, c.Level());
    Finding(f.category, severity, severity == Blocking, f.codes + {c.code}, f.sources + {c.source}, f.items + multiset{c.Item()},
            Join(f.evidence, c.evidence), MergeCoverage(f.coverage, c.coverage),
            if f.repair.action == MANUAL && c.repair.action != MANUAL then c.repair else f.repair)
  }

  function Merge(candidates: seq<Candidate>): Merged {
    if candidates == [] then map[]
    else
      var merged, c := Merge(candidates[..|candidates| - 1]), candidates[|candidates| - 1];
      merged[c.id := if c.id in merged then Absorb(merged[c.id], c) else First(c)]
  }

  method MergeFindings(candidates: seq<Candidate>) returns (merged: Merged)
    ensures merged == Merge(candidates)
  {
    merged := map[];
    for n := 0 to |candidates|
      invariant merged == Merge(candidates[..n])
    {
      assert candidates[..n + 1][..n] == candidates[..n];
      var c := candidates[n];
      if c.id !in merged {
        merged := merged[c.id := First(c)];
      } else {
        var f := merged[c.id];
        f := f.(codes := f.codes + {c.code});
        if Rank(c.Level()) > Rank(f.severity) {
          f := f.(severity := c.Level(), blocking := c.Level() == Blocking);
        } else {
          MergedBlocking(candidates[..n], c.id);
        }
        f := f.(sources := f.sources + {c.source}, items := f.items + multiset{c.Item()});
        f := f.(evidence := Join(f.evidence, c.evidence));
        f := f.(coverage := MergeCoverage(f.coverage, c.coverage));
        if f.repair.action == MANUAL && c.repair.action != MANUAL {
          f := f.(repair := c.repair);
        }
        assert f == Absorb(merged[c.id], c);
        merged := merged[c.id := f];
      }
    }
    assert candidates[..|candidates|] == candidates;
  }

  lemma {:induction false} MergedBlocking(candidates: seq<Candidate>, id: Identity)
    requires id in Merge(candidates)
    ensures Merge(candidates)[id].blocking <==> Merge(candidates)[id].severity == Blocking
    decreases |candidates|
  {
    var front, c := candidates[..|candidates| - 1], candidates[|candidates| - 1];
    if c.id == id {
    } else {
      MergedBlocking(front, id);
    }
  }

  predicate Accepts(merged: Merged, threshold: Severity) {
    forall id | id in merged :: Rank(merged[id].severity) < Rank(threshold)
  }

  // ---------- What a merged finding says about its candidates ----------

  /** The candidates of one identity, in order. */
  function Of(candidates: seq<Candidate>, id: Identity): seq<Candidate> {
    if candidates == [] then []
    else
      Of(candidates[..|candidates| - 1], id)
      + if candidates[|candidates| - 1].id == id then [candidates[|candidates| - 1]] else []
  }

  /** The first candidate with a repair of its own, or else the first candidate. */
  function RepairOf(own: seq<Candidate>): Repair
    requires own != []
  {
    if |own| == 1 then own[0].repair
    else
      var earlier := RepairOf(own[..|own| - 1]);
      if earlier.action == MANUAL && own[|own| - 1].repair.action != MANUAL then own[|own| - 1].repair else earlier
  }

  function ItemsOf(own: seq<Candidate>): multiset<ProducerItem> {
    if own == [] then multiset{} else ItemsOf(own[..|own| - 1]) + multiset{own[|own| - 1].Item()}
  }

  /** Everything any of the candidates shows. */
  function CoverageOf(own: seq<Candidate>): Coverage {
    Coverage(set c, x | c in own && x in c.coverage.requested :: x,
             set c, x | c in own && x in c.coverage.executed :: x,
             set c, x | c in own && x in c.coverage.skipped :: x)
  }

  /** Everything any of the candidates cites, in order of first mention. */
  function EvidenceOf(own: seq<Candidate>): Evidence {
    if own == [] then [] else Join(EvidenceOf(own[..|own| - 1]), own[|own| - 1].evidence)
  }

  /** The highest severity among the candidates. */
  ghost predicate HighestOf(severity: Severity, own: seq<Candidate>) {
    && (exists c | c in own :: c.Level() == severity)
    && (forall c | c in own :: Rank(c.Level()) <= Rank(severity))
  }

  /** `f` is the least upper bound of its candidates in every sorted field; the first candidate names the category. */
  ghost predicate Summarizes(f: Finding, own: seq<Candidate>) {
    && own != [] && f.category == own[0].Category() && HighestOf(f.severity, own)
    && (f.blocking <==> f.severity == Blocking)
    && f.codes == (set c | c in own :: c.code)
    && f.sources == (set c | c in own :: c.source)
    && f.items == ItemsOf(own)
    && f.evidence == EvidenceOf(own)
    && f.coverage == CoverageOf(own)
    && f.repair == RepairOf(own)
  }

  lemma HighestOfMore(severity: Severity, own: seq<Candidate>, c: Candidate)
    requires HighestOf(severity, own)
    ensures HighestOf(Higher(severity, c.Level()), own + [c])
  {
    var w :| w in own && w.Level() == severity;
    assert w in own + [c] && c in own + [c];
  }

  lemma ContentsOfMore(own: seq<Candidate>, c: Candidate)
    ensures CoverageOf(own + [c]) == MergeCoverage(CoverageOf(own), c.coverage)
    ensures (set x | x in own + [c] :: x.code) == (set x | x in own :: x.code) + {c.code}
    ensures (set x | x in own + [c] :: x.source) == (set x | x in own :: x.source) + {c.source}
  {
    assert forall x :: x in own + [c] <==> x in own || x == c;
  }

  lemma AbsorbSummarizes(f: Finding, own: seq<Candidate>, c: Candidate)
    requires Summarizes(f, own)
    ensures Summarizes(Absorb(f, c), own + [c])
  {
    assert (own + [c])[..|own|] == own;
    HighestOfMore(f.severity, own, c);
    ContentsOfMore(own, c);
  }

  lemma FirstContents(c: Candidate)
    ensures CoverageOf([c]) == c.coverage
    ensures (set x | x in [c] :: x.code) == {c.code} && (set x | x in [c] :: x.source) == {c.source}
  {
    assert CoverageOf([c]).requested == c.coverage.requested;
    assert CoverageOf([c]).executed == c.coverage.executed;
    assert CoverageOf([c]).skipped == c.coverage.skipped;
  }

  lemma {:induction false} JoinAppends(items: Evidence, more: seq<string>)
    requires NoRepeats(items + more)
    ensures Join(items, more) == items + more
    decreases |more|
  {
    if more == [] {
    } else {
      assert (items + more)[|items|] == more[0];
      assert forall i | 0 <= i < |items| :: (items + more)[i] == items[i] != more[0];
      assert (items + [more[0]]) + more[1..] == items + more;
      JoinAppends(items + [more[0]], more[1..]);
    }
  }

  lemma FirstSummarizes(c: Candidate)
    ensures Summarizes(First(c), [c])
  {
    assert [] + c.evidence == c.evidence;
    JoinAppends([], c.evidence);
    assert EvidenceOf([]) == [] && [c][..0] == [];
    assert c in [c];
    FirstContents(c);
    assert ItemsOf([c]) == multiset{} + multiset{c.Item()};
  }

  /** Each merged finding summarizes exactly the candidates of its identity, and every candidate is in one. */
  lemma {:induction false} MergeSummarizes(candidates: seq<Candidate>, id: Identity)
    ensures id in Merge(candidates) <==> Of(candidates, id) != []
    ensures id in Merge(candidates) ==> Summarizes(Merge(candidates)[id], Of(candidates, id))
    ensures id in Merge(candidates) ==>
              var first := Of(candidates, id)[0];
              Merge(candidates)[id].category == if first.category != "" then first.category else first.id.family
    decreases |candidates|
  {
    if candidates == [] {
    } else {
      var front, c := candidates[..|candidates| - 1], candidates[|candidates| - 1];
      MergeSummarizes(front, id);
      if c.id == id {
        assert Of(candidates, id) == Of(front, id) + [c];
        if id in Merge(front) {
          AbsorbSummarizes(Merge(front)[id], Of(front, id), c);
        } else {
          assert Of(candidates, id) == [c];
          FirstSummarizes(c);
        }
      } else {
        assert Of(candidates, id) == Of(front, id);
      }
    }
  }

  lemma {:induction false} OfMembers(candidates: seq<Candidate>, id: Identity)
    ensures forall c :: c in Of(candidates, id) <==> c in candidates && c.id == id
    decreases |candidates|
  {
    if candidates == [] {
    } else {
      OfMembers(candidates[..|candidates| - 1], id);
      assert candidates == candidates[..|candidates| - 1] + [candidates[|candidates| - 1]];
    }
  }

  /** A chapter is accepted exactly when no candidate's severity, unknown ones counting as needing revision,
      reaches the threshold. */
  lemma AcceptedExactly(candidates: seq<Candidate>, threshold: Severity)
    ensures Accepts(Merge(candidates), threshold) <==>
            forall c | c in candidates :: Rank(c.Level()) < Rank(threshold)
  {
    var merged := Merge(candidates);
    forall c | c in candidates
      ensures c.id in merged && Rank(c.Level()) <= Rank(merged[c.id].severity)
    {
      MergeSummarizes(candidates, c.id);
      OfMembers(candidates, c.id);
    }
    forall id | id in merged
      ensures exists c | c in candidates :: c.Level() == merged[id].severity
    {
      MergeSummarizes(candidates, id);
      OfMembers(candidates, id);
      var c :| c in Of(candidates, id) && c.Level() == merged[id].severity;
      assert c in candidates;
    }
  }

  /** Further candidates never turn a rejection into an acceptance. */
  lemma MoreCandidatesNeverAccept(candidates: seq<Candidate>, more: seq<Candidate>, threshold: Severity)
    requires !Accepts(Merge(candidates), threshold)
    ensures !Accepts(Merge(candidates + more), threshold) && !Accepts(Merge(more + candidates), threshold)
  {
    AcceptedExactly(candidates, threshold);
    AcceptedExactly(candidates + more, threshold);
    AcceptedExactly(more + candidates, threshold);
  }

  predicate AllManual(own: seq<Candidate>) {
    forall c | c in own :: c.repair.action == MANUAL
  }

  /** The first candidate with a repair of its own. */
  predicate NamesFirst(own: seq<Candidate>, i: int) {
    0 <= i < |own| && own[i].repair.action != MANUAL && AllManual(own[..i])
  }

  lemma OneMoreManual(front: seq<Candidate>, last: Candidate)
    ensures AllManual(front + [last]) <==> AllManual(front) && last.repair.action == MANUAL
  {
    assert last in front + [last];
    assert forall c | c in front :: c in front + [last];
  }

  lemma {:induction false} RepairIsFirst(own: seq<Candidate>)
    requires own != []
    ensures AllManual(own) ==> RepairOf(own) == own[0].repair
    ensures !AllManual(own) ==> exists i :: NamesFirst(own, i) && RepairOf(own) == own[i].repair
    decreases |own|
  {
    var n := |own| - 1;
    var front := own[..n];
    assert own == front + [own[n]];
    OneMoreManual(front, own[n]);
    if n == 0 {
      assert own[n].repair.action != MANUAL ==> NamesFirst(own, 0);
    } else {
      RepairIsFirst(front);
      if AllManual(front) {
        assert own[n].repair.action != MANUAL ==> NamesFirst(own, n);
      } else {
        var i :| NamesFirst(front, i) && RepairOf(front) == front[i].repair;
        assert own[..i] == front[..i];
        assert own[i] in own && NamesFirst(own, i);
      }
    }
  }

  /** A finding keeps asking for manual review exactly when every one of its candidates does, and then has the repair of
      the first; otherwise its repair is that of its first candidate that names one. */
  lemma RepairExactly(own: seq<Candidate>)
    requires own != []
    ensures RepairOf(own).action == MANUAL <==> AllManual(own)
    ensures RepairOf(own).action == MANUAL ==> RepairOf(own) == own[0].repair
    ensures RepairOf(own).action != MANUAL ==> exists i :: NamesFirst(own, i) && own[i].repair == RepairOf(own)
  {
    RepairIsFirst(own);
    if AllManual(own) {
      assert own[0] in own;
    }
  }
}
