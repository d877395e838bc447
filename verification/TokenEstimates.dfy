/** Conservative token estimates for models whose tokenizer is unknown, and fitting their ratio. */
module TokenEstimates {
  import opened Common
  import Utf8

  function Ceil(x: real): int {
    -((-x).Floor)
  }

  lemma CeilBounds(x: real)
    ensures x <= Ceil(x) as real < x + 1.0
  {
  }

  lemma CeilMonotone(x: real, y: real)
    requires x <= y
    ensures Ceil(x) <= Ceil(y)
  {
  }

  lemma CeilSubadditive(x: real, y: real)
    ensures Ceil(x + y) <= Ceil(x) + Ceil(y)
  {
    CeilBounds(x);
    CeilBounds(y);
    CeilBounds(x + y);
  }

  const FIXED_OVERHEAD := 64

  const ASCII_FLOOR := 1.0

  datatype Estimator = Estimator(ratio: real, overhead: int) {
    predicate Valid() {
      ratio > 0.0 && overhead >= 0
    }
  }

  function Bytes(n: nat, ratio: real): int {
    Ceil(n as real * ratio)
  }

  function Estimate(e: Estimator, text: string): int {
    Bytes(Utf8.Length(text), e.ratio) + e.overhead
  }

  /** Scaling up by a safety ratio. */
  function WithMargin(tokens: int, safety: real): int {
    Ceil(tokens as real * (1.0 + safety))
  }

  /** ASCII bytes are never charged below one token each, all others calibrated with a margin. */
  function Reserve(e: Estimator, ascii: nat, other: nat, safety: real, fixedOverhead: int): int {
    Max(Bytes(ascii, ASCII_FLOOR), WithMargin(Bytes(ascii, e.ratio), safety))
    + WithMargin(Bytes(other, e.ratio) + e.overhead, safety)
    + fixedOverhead
  }

  function OtherCount(text: string): nat {
    Utf8.AsciiWithinLength(text);
    Utf8.Length(text) - Utf8.AsciiCount(text)
  }

  /** The production reservation for a text. */
  function Conservative(e: Estimator, text: string, safety: real, fixedOverhead: int): int {
    Reserve(e, Utf8.AsciiCount(text), OtherCount(text), safety, fixedOverhead)
  }

  // ---------- Monotone pieces ----------

  lemma TimesMonotone(a: real, b: real, factor: real)
    requires a <= b && factor >= 0.0
    ensures a * factor <= b * factor
  {
    assert (b - a) * factor >= 0.0;
  }

  lemma BytesMonotone(m: nat, n: nat, ratio: real)
    requires m <= n && ratio >= 0.0
    ensures 0 <= Bytes(m, ratio) <= Bytes(n, ratio)
  {
    TimesMonotone(0.0, m as real, ratio);
    TimesMonotone(m as real, n as real, ratio);
    CeilMonotone(m as real * ratio, n as real * ratio);
    CeilMonotone(0.0, m as real * ratio);
  }

  lemma BytesSubadditive(m: nat, n: nat, ratio: real)
    ensures Bytes(m + n, ratio) <= Bytes(m, ratio) + Bytes(n, ratio)
  {
    var a, b := m as real * ratio, n as real * ratio;
    assert (m + n) as real == m as real + n as real;
    assert (m as real + n as real) * ratio == a + b;
    CeilSubadditive(a, b);
  }

  lemma MarginGrows(tokens: int, safety: real)
    requires tokens >= 0 && safety >= 0.0
    ensures tokens <= WithMargin(tokens, safety)
  {
    TimesMonotone(0.0, tokens as real, safety);
    assert tokens as real * (1.0 + safety) == tokens as real + tokens as real * safety;
    CeilMonotone(tokens as real, tokens as real * (1.0 + safety));
  }

  lemma MarginMonotone(m: int, n: int, safety: real)
    requires m <= n && safety >= 0.0
    ensures WithMargin(m, safety) <= WithMargin(n, safety)
  {
    TimesMonotone(m as real, n as real, 1.0 + safety);
    CeilMonotone(m as real * (1.0 + safety), n as real * (1.0 + safety));
  }

  // ---------- What the conservative estimate guarantees ----------

  /** Never below the plain estimate plus the fixed overhead, nor below one token per ASCII byte plus the overhead. */
  lemma ConservativeCovers(e: Estimator, text: string, safety: real, fixedOverhead: int)
    requires e.Valid() && safety >= 0.0 && fixedOverhead >= 0
    ensures Conservative(e, text, safety, fixedOverhead) >= Estimate(e, text) + fixedOverhead
    ensures Conservative(e, text, safety, fixedOverhead) >= Utf8.AsciiCount(text) + fixedOverhead
  {
    var ascii := Utf8.AsciiCount(text);
    Utf8.AsciiWithinLength(text);
    var other := OtherCount(text);
    BytesMonotone(0, ascii, e.ratio);
    BytesMonotone(0, other, e.ratio);
    MarginGrows(Bytes(ascii, e.ratio), safety);
    MarginGrows(Bytes(other, e.ratio) + e.overhead, safety);
    BytesSubadditive(ascii, other, e.ratio);
    CeilBounds(ascii as real * ASCII_FLOOR);
  }

  lemma ReserveMonotone(e: Estimator, m: nat, n: nat, x: nat, y: nat, safety: real, fixedOverhead: int)
    requires e.Valid() && safety >= 0.0 && m <= n && x <= y
    ensures Reserve(e, m, x, safety, fixedOverhead) <= Reserve(e, n, y, safety, fixedOverhead)
  {
    BytesMonotone(m, n, ASCII_FLOOR);
    BytesMonotone(m, n, e.ratio);
    MarginMonotone(Bytes(m, e.ratio), Bytes(n, e.ratio), safety);
    BytesMonotone(x, y, e.ratio);
    MarginMonotone(Bytes(x, e.ratio) + e.overhead, Bytes(y, e.ratio) + e.overhead, safety);
  }

  /** Adding text at either end never lowers the reservation. */
  lemma ConservativeGrows(e: Estimator, left: string, right: string, safety: real, fixedOverhead: int)
    requires e.Valid() && safety >= 0.0
    ensures Conservative(e, left, safety, fixedOverhead) <= Conservative(e, left + right, safety, fixedOverhead)
    ensures Conservative(e, right, safety, fixedOverhead) <= Conservative(e, left + right, safety, fixedOverhead)
  {
    Utf8.LengthConcat(left, right);
    Utf8.AsciiWithinLength(left);
    Utf8.AsciiWithinLength(right);
    ReserveMonotone(e, Utf8.AsciiCount(left), Utf8.AsciiCount(left + right), OtherCount(left), OtherCount(left + right),
                    safety, fixedOverhead);
    ReserveMonotone(e, Utf8.AsciiCount(right), Utf8.AsciiCount(left + right), OtherCount(right), OtherCount(left + right),
                    safety, fixedOverhead);
  }

  // ---------- Measuring against a budget ----------

  datatype Counting = Counted(tokens: nat) | Calibrated(estimator: Estimator) | Default(estimator: Estimator)

  datatype Report = Report(raw: int, budgeted: int, within: bool)

  function Measure(counting: Counting, text: string, safety: real, hardLimit: int): Report {
    var raw := match counting
               case Counted(tokens) => tokens
               case Calibrated(e) => Estimate(e, text)
               case Default(e) => Estimate(e, text);
    var budgeted := match counting
                    case Counted(tokens) => tokens
                    case Calibrated(e) => WithMargin(Estimate(e, text), safety)
                    case Default(e) => Conservative(e, text, safety, FIXED_OVERHEAD);
    Report(raw, budgeted, budgeted <= hardLimit)
  }

  /** In every counting mode the tokens charged against the budget are at least those counted. */
  lemma BudgetedCoversRaw(counting: Counting, text: string, safety: real, hardLimit: int)
    requires safety >= 0.0 && (counting.Counted? || counting.estimator.Valid())
    ensures Measure(counting, text, safety, hardLimit).raw <= Measure(counting, text, safety, hardLimit).budgeted
    ensures Measure(counting, text, safety, hardLimit).within ==> Measure(counting, text, safety, hardLimit).raw <= hardLimit
  {
    if !counting.Counted? {
      BytesMonotone(0, Utf8.Length(text), counting.estimator.ratio);
      MarginGrows(Estimate(counting.estimator, text), safety);
      ConservativeCovers(counting.estimator, text, safety, FIXED_OVERHEAD);
    }
  }

  // ---------- Fitting ----------

  /** `knownEndpoint` and `knownProfile` say that the endpoint type and the language profile are among the known ones. */
  datatype Sample = Sample(id: string, calibration: bool, text: string, actualTokens: int, knownEndpoint: bool,
                           knownProfile: bool, provider: string, model: string, reference: string)
  {
    predicate Explicit() {
      provider != "" && model != "" && reference != ""
    }
  }

  /** What fitting accepts: fully described calibration samples with distinct ids, text and a positive count. */
  predicate Usable(samples: seq<Sample>) {
    && (forall i | 0 <= i < |samples| ::
          && samples[i].calibration && samples[i].id != "" && samples[i].text != "" && samples[i].actualTokens >= 1
          && samples[i].knownEndpoint && samples[i].knownProfile
          && samples[i].provider != "" && samples[i].model != "" && samples[i].reference != "")
    && forall i, j | 0 <= i < j < |samples| :: samples[i].id != samples[j].id
  }

  lemma BytesPositive(text: string)
    requires text != ""
    ensures Utf8.Length(text) >= 1
  {
  }

  /** Checks every sample once, remembering the ids already seen. */
  method Normalize(samples: seq<Sample>) returns (ok: bool)
    ensures ok <==> Usable(samples)
  {
    var seen: set<string> := {};
    for n := 0 to |samples|
      invariant Usable(samples[..n])
      invariant forall id :: id in seen <==> exists i :: 0 <= i < n && samples[i].id == id
    {
      var sample := samples[n];
      if !sample.calibration || sample.id == "" || sample.id in seen || sample.text == "" || sample.actualTokens < 1
         || !sample.knownEndpoint || !sample.knownProfile || !sample.Explicit()
      {
        if sample.id in seen {
          var i :| 0 <= i < n && samples[i].id == sample.id;
        }
        return false;
      }
      seen := seen + {sample.id};
      assert samples[..n + 1] == samples[..n] + [sample];
    }
    assert samples[..|samples|] == samples;
    return true;
  }

  function RatioOf(sample: Sample): real
    requires sample.text != ""
  {
    BytesPositive(sample.text);
    sample.actualTokens as real / Utf8.Length(sample.text) as real
  }

  /** The largest observed ratio, taken from the first sample that reaches it. */
  method Fit(samples: seq<Sample>) returns (fitted: Option<Estimator>)
    ensures fitted.Some? <==> samples != [] && Usable(samples)
    ensures fitted.Some? ==>
              && fitted.value.Valid() && fitted.value.ratio > 0.0 && fitted.value.overhead == 0
              && (forall i | 0 <= i < |samples| :: samples[i].text != "" && RatioOf(samples[i]) <= fitted.value.ratio)
              && (exists i :: 0 <= i < |samples| && samples[i].text != "" && RatioOf(samples[i]) == fitted.value.ratio)
  {
    var ok := Normalize(samples);
    if samples == [] || !ok {
      return None;
    }
    var best := RatioOf(samples[0]);
    for n := 1 to |samples|
      invariant forall i | 0 <= i < n :: RatioOf(samples[i]) <= best
      invariant exists i :: 0 <= i < n && RatioOf(samples[i]) == best
    {
      if RatioOf(samples[n]) > best {
        best := RatioOf(samples[n]);
      }
    }
    ghost var i :| 0 <= i < |samples| && RatioOf(samples[i]) == best;
    BytesPositive(samples[i].text);
    PositiveQuotient(samples[i].actualTokens as real, Utf8.Length(samples[i].text) as real);
    return Some(Estimator(best, 0));
  }

  lemma PositiveQuotient(a: real, b: real)
    requires a > 0.0 && b > 0.0
    ensures a / b > 0.0 && (a / b) * b == a
  {
  }

  lemma RatioCovers(actual: real, bytes: real, ratio: real)
    requires actual > 0.0 && bytes > 0.0 && actual / bytes <= ratio
    ensures actual <= bytes * ratio
  {
    PositiveQuotient(actual, bytes);
    TimesMonotone(actual / bytes, ratio, bytes);
  }

  lemma CountFits(actual: int, bytes: nat, ratio: real)
    requires actual >= 1 && bytes >= 1 && actual as real / bytes as real <= ratio
    ensures Ceil(bytes as real * ratio) >= actual
  {
    RatioCovers(actual as real, bytes as real, ratio);
    CeilMonotone(actual as real, bytes as real * ratio);
  }

  /** A ratio at least as large as every observed one never underestimates a sample it was fitted on. */
  lemma FittedNeverUnderestimates(samples: seq<Sample>, e: Estimator, i: nat)
    requires Usable(samples) && i < |samples| && e.overhead >= 0 && RatioOf(samples[i]) <= e.ratio
    ensures Estimate(e, samples[i].text) >= samples[i].actualTokens
  {
    BytesPositive(samples[i].text);
    CountFits(samples[i].actualTokens, Utf8.Length(samples[i].text), e.ratio);
  }
}
