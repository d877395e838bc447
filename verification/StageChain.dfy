/** Stage authorizations, stage receipts and the hash-linked chain of receipts of one chapter. */
module StageChain {
  import opened Common

  const STAGES := {"outline", "scene_plan", "draft", "polish", "validator", "repair"}

  datatype Status = Succeeded | Failed | ProviderCallUncertain | BudgetRejected | Cancelled

  datatype Kind = ByModel | Deterministic

  datatype Authority = Authority(epoch: nat, head: Option<string>)

  datatype Scope = Scope(bookId: string, sessionId: string, planId: string)

  datatype AuthorizationBody = AuthorizationBody(stage: string, scope: Scope, chapter: int, authority: Authority,
                                                 inputDigest: string, previous: Option<string>, provider: string,
                                                 maxOutput: int, kind: Kind, issuedAt: string)

  datatype Authorization = Authorization(body: AuthorizationBody, hash: string)

  /** Everything a receipt's own hash covers; older receipts do not name the marker recovery protocol. */
  datatype ReceiptBody = ReceiptBody(authorizationHash: string, stage: string, status: Status, scope: Scope, chapter: int,
                                     authority: Authority, inputDigest: string, output: Option<string>, kind: Kind,
                                     evidence: Option<string>, modelReceipt: Option<string>, modelReceipts: seq<string>,
                                     previous: Option<string>, createdAt: string, markerRecovery: bool)

  datatype Receipt = Receipt(body: ReceiptBody, hash: string)

  /** The hash functions; collisions are excluded by `Injective`. */
  datatype Hashes = Hashes(authorization: AuthorizationBody -> string, receipt: ReceiptBody -> string,
                           evidence: seq<string> -> string)

  ghost predicate Injective(h: Hashes) {
    forall a, b | h.receipt(a) == h.receipt(b) :: a == b
  }

  predicate ValidScope(scope: Scope) {
    scope.bookId != "" && scope.sessionId != "" && scope.planId != ""
  }

  predicate ValidAuthorization(h: Hashes, a: Authorization) {
    && a.body.stage in STAGES && ValidScope(a.body.scope) && a.body.provider != ""
    && a.body.chapter >= 1 && a.body.maxOutput >= 1
    && a.hash == h.authorization(a.body)
  }

  predicate ValidReceipt(h: Hashes, r: Receipt) {
    && r.body.stage in STAGES && ValidScope(r.body.scope) && r.body.chapter >= 1
    && NoRepeats(r.body.modelReceipts)
    && r.hash == h.receipt(r.body)
    && (r.body.status.Succeeded? <==> r.body.output.Some?)
    && (r.body.status.Succeeded? <==> r.body.evidence.Some?)
    && (r.body.kind.ByModel? ==>
          && (r.body.status.Succeeded? ==> r.body.modelReceipts != [])
          && (r.body.modelReceipt.Some? ==> r.body.modelReceipt.value in r.body.modelReceipts))
    && (r.body.kind.Deterministic? ==> r.body.modelReceipts == [] && r.body.modelReceipt.None?)
  }

  /** What a stage reports when it ends. */
  datatype Report = Report(status: Status, output: Option<string>, modelReceipt: Option<string>,
                           modelReceipts: seq<string>, evidence: Option<string>, createdAt: string)

  function AllReceipts(report: Report): seq<string> {
    if report.modelReceipt.Some? && report.modelReceipt.value !in report.modelReceipts
    then report.modelReceipts + [report.modelReceipt.value]
    else report.modelReceipts
  }

  function EvidenceOf(h: Hashes, kind: Kind, report: Report): Option<string> {
    if report.evidence.None? && kind.ByModel? && AllReceipts(report) != [] then Some(h.evidence(AllReceipts(report)))
    else report.evidence
  }

  function BodyFor(h: Hashes, a: Authorization, report: Report): ReceiptBody {
    ReceiptBody(a.hash, a.body.stage, report.status, a.body.scope, a.body.chapter, a.body.authority, a.body.inputDigest,
                report.output, a.body.kind, EvidenceOf(h, a.body.kind, report), report.modelReceipt, AllReceipts(report),
                a.body.previous, report.createdAt, true)
  }

  /** The receipt for an authorized stage; `None` stands for every refusal. */
  method BuildReceipt(h: Hashes, a: Authorization, report: Report) returns (receipt: Option<Receipt>)
    ensures receipt.Some? ==> receipt.value == Receipt(BodyFor(h, a, report), h.receipt(BodyFor(h, a, report)))
    ensures receipt.Some? <==>
              && ValidAuthorization(h, a)
              && ValidReceipt(h, Receipt(BodyFor(h, a, report), h.receipt(BodyFor(h, a, report))))
              && NoRepeats(report.modelReceipts)
              && (!report.status.Succeeded? ==> AllReceipts(report) == [])
  {
    if !ValidAuthorization(h, a) {
      return None;
    }
    if report.status.Succeeded? != report.output.Some? {
      return None;
    }
    if !NoRepeats(report.modelReceipts) {
      return None;
    }
    var hashes := AllReceipts(report);
    var evidence := EvidenceOf(h, a.body.kind, report);
    if report.status.Succeeded? {
      if a.body.kind.ByModel? && hashes == [] {
        return None;
      }
      if a.body.kind.Deterministic? && hashes != [] {
        return None;
      }
      if evidence.None? {
        return None;
      }
    } else if hashes != [] || evidence.Some? {
      return None;
    }
    var body := BodyFor(h, a, report);
    return Some(Receipt(body, h.receipt(body)));
  }

  /** A receipt carries out exactly what was authorized. */
  predicate Matches(r: Receipt, a: Authorization) {
    && r.body.authorizationHash == a.hash
    && r.body.stage == a.body.stage && r.body.scope == a.body.scope && r.body.chapter == a.body.chapter
    && r.body.authority == a.body.authority && r.body.inputDigest == a.body.inputDigest
    && r.body.previous == a.body.previous && r.body.kind == a.body.kind
  }

  // ---------- Chains ----------

  function HashBefore(receipts: seq<Receipt>, i: nat): Option<string>
    requires i <= |receipts|
  {
    if i == 0 then None else Some(receipts[i - 1].hash)
  }

  predicate LinkOk(h: Hashes, receipts: seq<Receipt>, i: nat)
    requires i < |receipts|
  {
    && ValidReceipt(h, receipts[i])
    && receipts[i].body.previous == HashBefore(receipts, i)
    && receipts[i].body.scope == receipts[0].body.scope
    && receipts[i].body.chapter == receipts[0].body.chapter
  }

  predicate Chain(h: Hashes, receipts: seq<Receipt>) {
    forall i | 0 <= i < |receipts| :: LinkOk(h, receipts, i)
  }

  /** Walks the chain once, remembering the last hash, the scope and the chapter. */
  method ValidateChain(h: Hashes, receipts: seq<Receipt>) returns (accepted: bool)
    ensures accepted <==> Chain(h, receipts)
  {
    var previousHash: Option<string> := None;
    var scope: Option<Scope> := None;
    var previousChapter: Option<int> := None;
    for n := 0 to |receipts|
      invariant previousHash == HashBefore(receipts, n)
      invariant scope == (if n == 0 then None else Some(receipts[0].body.scope))
      invariant previousChapter == (if n == 0 then None else Some(receipts[0].body.chapter))
      invariant forall i | 0 <= i < n :: LinkOk(h, receipts, i)
    {
      var r := receipts[n];
      assert !Chain(h, receipts) || LinkOk(h, receipts, n);
      if !ValidReceipt(h, r) || r.body.previous != previousHash {
        return false;
      }
      if scope.None? {
        scope := Some(r.body.scope);
      } else if r.body.scope != scope.value {
        return false;
      }
      if previousChapter.Some? && r.body.chapter != previousChapter.value {
        return false;
      }
      previousHash := Some(r.hash);
      previousChapter := Some(r.body.chapter);
    }
    return true;
  }

  /** Two accepted chains that end in the same receipt hash are the same chain: no receipt was added, left out,
      reordered or altered. */
  lemma {:induction false} ChainsEndingAlikeAgree(h: Hashes, a: seq<Receipt>, b: seq<Receipt>)
    requires Injective(h) && Chain(h, a) && Chain(h, b)
    requires HashBefore(a, |a|) == HashBefore(b, |b|)
    ensures a == b
    decreases |a|
  {
    if a == [] || b == [] {
    } else {
      var m, n := |a| - 1, |b| - 1;
      assert LinkOk(h, a, m) && LinkOk(h, b, n);
      assert a[m] == b[n];
      PrefixChain(h, a, m);
      PrefixChain(h, b, n);
      assert HashBefore(a[..m], m) == HashBefore(a, m) && HashBefore(b[..n], n) == HashBefore(b, n);
      ChainsEndingAlikeAgree(h, a[..m], b[..n]);
      assert a == a[..m] + [a[m]] && b == b[..n] + [b[n]];
    }
  }

  lemma PrefixChain(h: Hashes, receipts: seq<Receipt>, n: nat)
    requires Chain(h, receipts) && n <= |receipts|
    ensures Chain(h, receipts[..n])
  {
    forall i | 0 <= i < n ensures LinkOk(h, receipts[..n], i) {
      assert LinkOk(h, receipts, i);
    }
  }

  /** A receipt built from an authorization matches it, and it extends an accepted chain exactly when the
      authorization names the chain's last hash and stays within its scope and chapter. */
  lemma BuiltReceiptExtendsExactly(h: Hashes, receipts: seq<Receipt>, a: Authorization, report: Report)
    requires Chain(h, receipts)
    requires ValidReceipt(h, Receipt(BodyFor(h, a, report), h.receipt(BodyFor(h, a, report))))
    ensures var built := Receipt(BodyFor(h, a, report), h.receipt(BodyFor(h, a, report)));
            && Matches(built, a)
            && (Chain(h, receipts + [built]) <==>
                  && a.body.previous == HashBefore(receipts, |receipts|)
                  && (receipts != [] ==> a.body.scope == receipts[0].body.scope && a.body.chapter == receipts[0].body.chapter))
  {
    var built := Receipt(BodyFor(h, a, report), h.receipt(BodyFor(h, a, report)));
    var longer, n := receipts + [built], |receipts|;
    assert longer[n] == built && HashBefore(longer, n) == HashBefore(receipts, n);
    forall i | 0 <= i < n ensures LinkOk(h, longer, i) {
      assert LinkOk(h, receipts, i);
    }
    assert Chain(h, longer) <==> LinkOk(h, longer, n);
  }

  // ---------- In terms of what was authorized and reported ----------

  /** The hashes of all model receipts: those listed, and the primary one behind them if it is not among them. */
  predicate Lists(all: seq<string>, report: Report) {
    all == report.modelReceipts
           + if report.modelReceipt.None? || report.modelReceipt.value in report.modelReceipts then [] else [report.modelReceipt.value]
  }

  /** What an authorization must say, and be the hash of. */
  predicate Authorizes(h: Hashes, a: Authorization) {
    && a.body.stage in {"outline", "scene_plan", "draft", "polish", "validator", "repair"}
    && a.body.scope.bookId != "" && a.body.scope.sessionId != "" && a.body.scope.planId != "" && a.body.provider != ""
    && a.body.chapter > 0 && a.body.maxOutput > 0 && a.hash == h.authorization(a.body)
  }

  /** A success has output, and evidence of its kind: distinct model receipts, or none of them and a hash of its own. Any
      other end has neither output nor evidence. */
  predicate Reportable(kind: Kind, report: Report) {
    && NoRepeats(report.modelReceipts) && (report.output.Some? <==> report.status.Succeeded?)
    && var none := report.modelReceipts == [] && report.modelReceipt.None?;
       if !report.status.Succeeded? then none && report.evidence.None?
       else if kind.ByModel? then !none
       else none && report.evidence.Some?
  }

  /** The receipt carries everything over from authorization and report; evidence that a model stage does not name is the
      hash of its model receipts. */
  predicate Carries(h: Hashes, r: Receipt, a: Authorization, report: Report) {
    && r.hash == h.receipt(r.body) && r.body.authorizationHash == a.hash
    && r.body.stage == a.body.stage && r.body.scope == a.body.scope && r.body.chapter == a.body.chapter
    && r.body.authority == a.body.authority && r.body.inputDigest == a.body.inputDigest
    && r.body.previous == a.body.previous && r.body.kind == a.body.kind && r.body.markerRecovery
    && r.body.status == report.status && r.body.output == report.output && r.body.createdAt == report.createdAt
    && r.body.modelReceipt == report.modelReceipt && Lists(r.body.modelReceipts, report)
    && r.body.evidence == if report.evidence.None? && a.body.kind.ByModel? && r.body.modelReceipts != []
                          then Some(h.evidence(r.body.modelReceipts)) else report.evidence
  }

  lemma AllDistinct(report: Report)
    requires NoRepeats(report.modelReceipts)
    ensures Lists(AllReceipts(report), report) && NoRepeats(AllReceipts(report))
  {
    assert report.modelReceipts + [] == report.modelReceipts;
  }

  /** The conditions under which building succeeds, and the receipt that it builds. */
  lemma BuildsExactly(h: Hashes, a: Authorization, report: Report)
    ensures var built := Receipt(BodyFor(h, a, report), h.receipt(BodyFor(h, a, report)));
            && Carries(h, built, a, report)
            && (ValidAuthorization(h, a) && ValidReceipt(h, built) && NoRepeats(report.modelReceipts)
                && (!report.status.Succeeded? ==> AllReceipts(report) == [])
                <==> Authorizes(h, a) && Reportable(a.body.kind, report))
  {
    if NoRepeats(report.modelReceipts) {
      AllDistinct(report);
    }
    assert report.modelReceipts + [] == report.modelReceipts;
  }

  /** What a receipt of an accepted chain satisfies. */
  lemma AcceptedReceiptMeans(h: Hashes, receipts: seq<Receipt>, i: nat)
    requires Chain(h, receipts) && i < |receipts|
    ensures var r := receipts[i];
            && r.hash == h.receipt(r.body) && NoRepeats(r.body.modelReceipts) && r.body.chapter > 0
            && r.body.stage in {"outline", "scene_plan", "draft", "polish", "validator", "repair"}
            && r.body.scope.bookId != "" && r.body.scope.sessionId != "" && r.body.scope.planId != ""
            && (r.body.output.Some? <==> r.body.status.Succeeded?) && (r.body.evidence.Some? <==> r.body.status.Succeeded?)
            && r.body.previous == (if i == 0 then None else Some(receipts[i - 1].hash))
            && r.body.scope == receipts[0].body.scope && r.body.chapter == receipts[0].body.chapter
            && (r.body.kind == ByModel ==>
                  && (r.body.status.Succeeded? ==> |r.body.modelReceipts| > 0)
                  && (r.body.modelReceipt.Some? ==> r.body.modelReceipt.value in r.body.modelReceipts))
            && (r.body.kind == Deterministic ==> r.body.modelReceipts == [] && r.body.modelReceipt == None)
  {
    assert LinkOk(h, receipts, i);
  }
}
