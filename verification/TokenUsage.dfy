/** Provider token usage: parsing a usage mapping and turning it into a charge. */
module TokenUsage {
  import opened Common

  /** One entry of a usage mapping. */
  datatype Field = Absent | Malformed | Count(n: nat)

  datatype Details = NoDetails | BadDetails | Details(total: Field)

  datatype RawUsage =
    | NotAMapping
    | RawUsage(input: Field, prompt: Field, inputDetails: Details,
               cacheCreation: Field, cacheRead: Field,
               output: Field, completion: Field, outputDetails: Details,
               total: Field)

  const EMPTY_USAGE := RawUsage(Absent, Absent, NoDetails, Absent, Absent, Absent, Absent, NoDetails, Absent)

  const ZERO_USAGE :=
    RawUsage(Count(0), Absent, NoDetails, Absent, Absent, Count(0), Absent, NoDetails, Count(0))

  datatype Usage = Usage(input: Option<nat>, output: Option<nat>, total: Option<nat>, invalid: bool)

  /** The value selected so far, and whether the fields read so far contradict each other. */
  datatype Selection = Selection(value: Option<nat>, invalid: bool)

  function Select(acc: Selection, field: Field): Selection {
    match field
    case Absent => acc
    case Malformed => acc.(invalid := true)
    case Count(n) =>
      if acc.value.None? then acc.(value := Some(n))
      else if acc.value.value != n then acc.(invalid := true)
      else acc
  }

  function SelectDetails(acc: Selection, details: Details): Selection {
    match details
    case NoDetails => acc
    case BadDetails => acc.(invalid := true)
    case Details(total) => Select(acc, total)
  }

  function FirstUsageInteger(primary: Field, alias: Field, details: Details): Selection {
    SelectDetails(Select(Select(Selection(None, false), primary), alias), details)
  }

  function FieldValue(field: Field): Option<nat> {
    if field.Count? then Some(field.n) else None
  }

  function Parse(raw: RawUsage): Usage {
    match raw
    case NotAMapping => Usage(None, None, None, false)
    case RawUsage(_, _, _, _, _, _, _, _, _) =>
      var selectedInput := FirstUsageInteger(raw.input, raw.prompt, raw.inputDetails);
      var creation, read := FieldValue(raw.cacheCreation), FieldValue(raw.cacheRead);
      var input: Option<nat> :=
        if creation.Some? || read.Some?
        then Some(selectedInput.value.GetOr(0) + creation.GetOr(0) + read.GetOr(0))
        else selectedInput.value;
      var selectedOutput := FirstUsageInteger(raw.output, raw.completion, raw.outputDetails);
      var output := selectedOutput.value;
      var total := FieldValue(raw.total);
      var invalid := selectedInput.invalid || raw.cacheCreation.Malformed? || raw.cacheRead.Malformed?
                     || selectedOutput.invalid || raw.total.Malformed?;
      if total.None? then Usage(input, output, total, invalid)
      else if input.Some? && output.Some? then
        Usage(input, output, total, invalid || input.value + output.value != total.value)
      else if input.Some? then
        if input.value <= total.value then Usage(input, Some(total.value - input.value), total, invalid)
        else Usage(input, output, total, true)
      else if output.Some? then
        if output.value <= total.value then Usage(Some(total.value - output.value), output, total, invalid)
        else Usage(input, output, total, true)
      else Usage(input, output, total, invalid)
  }

  datatype Charge = Charge(input: nat, output: nat)

  function Settlement(usage: Usage, reservedInput: nat, reservedOutput: nat, fallbackOutput: nat): Charge {
    if usage.invalid then
      var total := usage.total.GetOr(0);
      Charge(Max(Max(reservedInput, usage.input.GetOr(0)), total),
             Max(Max(Max(reservedOutput, fallbackOutput), usage.output.GetOr(0)), total))
    else if usage.total.Some? && usage.input.None? && usage.output.None? then
      Charge(Max(reservedInput, usage.total.value),
             Max(Max(reservedOutput, fallbackOutput), usage.total.value))
    else
      Charge(usage.input.GetOr(reservedInput),
             usage.output.GetOr(Max(reservedOutput, fallbackOutput)))
  }

  // ---------- What a usage mapping means ----------

  function Counts(primary: Field, alias: Field, details: Details): set<nat> {
    (if primary.Count? then {primary.n} else {})
    + (if alias.Count? then {alias.n} else {})
    + (if details.Details? && details.total.Count? then {details.total.n} else {})
  }

  predicate DetailsWellFormed(details: Details) {
    !details.BadDetails? && (details.Details? ==> !details.total.Malformed?)
  }

  predicate WellFormed(raw: RawUsage) {
    raw.RawUsage? ==>
      && !raw.input.Malformed? && !raw.prompt.Malformed? && DetailsWellFormed(raw.inputDetails)
      && !raw.cacheCreation.Malformed? && !raw.cacheRead.Malformed?
      && !raw.output.Malformed? && !raw.completion.Malformed? && DetailsWellFormed(raw.outputDetails)
      && !raw.total.Malformed?
  }

  predicate ReportsInput(raw: RawUsage) {
    raw.RawUsage? &&
    (Counts(raw.input, raw.prompt, raw.inputDetails) != {} || raw.cacheCreation.Count? || raw.cacheRead.Count?)
  }

  predicate ReportsOutput(raw: RawUsage) {
    raw.RawUsage? && Counts(raw.output, raw.completion, raw.outputDetails) != {}
  }

  function Cached(raw: RawUsage): nat
    requires raw.RawUsage?
  {
    FieldValue(raw.cacheCreation).GetOr(0) + FieldValue(raw.cacheRead).GetOr(0)
  }

  /** The pair (input, output) accounts for every figure the mapping reports. */
  ghost predicate Explains(raw: RawUsage, input: nat, output: nat) {
    raw.RawUsage? ==>
      && (forall n | n in Counts(raw.input, raw.prompt, raw.inputDetails) :: input == n + Cached(raw))
      && (ReportsInput(raw) && Counts(raw.input, raw.prompt, raw.inputDetails) == {} ==> input == Cached(raw))
      && (forall n | n in Counts(raw.output, raw.completion, raw.outputDetails) :: output == n)
      && (raw.total.Count? ==> input + output == raw.total.n)
  }

  lemma FirstUsageIntegerMeaning(primary: Field, alias: Field, details: Details)
    ensures var s := FirstUsageInteger(primary, alias, details);
            && (s.value.Some? <==> Counts(primary, alias, details) != {})
            && (s.value.Some? ==> s.value.value in Counts(primary, alias, details))
            && (!s.invalid <==> !primary.Malformed? && !alias.Malformed? && DetailsWellFormed(details)
                                && forall n | n in Counts(primary, alias, details) :: s.value == Some(n))
  {
    var s := FirstUsageInteger(primary, alias, details);
    var counts := Counts(primary, alias, details);
    if primary.Count? { assert primary.n in counts; }
    if alias.Count? { assert alias.n in counts; }
    if details.Details? && details.total.Count? { assert details.total.n in counts; }
    if s.value.None? { assert counts == {}; }
  }

  /** The allocation a valid usage stands for, with 0 for a part nothing is said about. */
  function Allocation(usage: Usage): Charge {
    if usage.input.None? && usage.output.None? then Charge(0, usage.total.GetOr(0))
    else Charge(usage.input.GetOr(0), usage.output.GetOr(0))
  }

  lemma ValidUsageIsExplained(raw: RawUsage)
    requires !Parse(raw).invalid
    ensures WellFormed(raw)
    ensures Explains(raw, Allocation(Parse(raw)).input, Allocation(Parse(raw)).output)
  {
    if raw.RawUsage? {
      FirstUsageIntegerMeaning(raw.input, raw.prompt, raw.inputDetails);
      FirstUsageIntegerMeaning(raw.output, raw.completion, raw.outputDetails);
    }
  }

  lemma ExplainedUsageIsValid(raw: RawUsage, input: nat, output: nat)
    requires WellFormed(raw) && Explains(raw, input, output)
    ensures !Parse(raw).invalid
  {
    if raw.RawUsage? {
      FirstUsageIntegerMeaning(raw.input, raw.prompt, raw.inputDetails);
      FirstUsageIntegerMeaning(raw.output, raw.completion, raw.outputDetails);
    }
  }

  /** Usage is rejected exactly when a figure is malformed or no allocation explains all figures. */
  lemma InvalidMeansUnexplainable(raw: RawUsage)
    ensures !Parse(raw).invalid <==> WellFormed(raw) && exists i: nat, o: nat :: Explains(raw, i, o)
  {
    if !Parse(raw).invalid {
      ValidUsageIsExplained(raw);
    } else if i: nat, o: nat :| WellFormed(raw) && Explains(raw, i, o) {
      ExplainedUsageIsValid(raw, i, o);
    }
  }

  /** A valid usage that reports a total and one part is charged as the only allocation that explains it. */
  lemma TotalAndPartChargeExactly(raw: RawUsage, reservedInput: nat, reservedOutput: nat, fallback: nat)
    requires !Parse(raw).invalid
    requires raw.RawUsage? && raw.total.Count? && (ReportsInput(raw) || ReportsOutput(raw))
    ensures var c := Settlement(Parse(raw), reservedInput, reservedOutput, fallback);
            && c.input + c.output == raw.total.n
            && Explains(raw, c.input, c.output)
            && forall i: nat, o: nat | Explains(raw, i, o) :: i == c.input && o == c.output
  {
    FirstUsageIntegerMeaning(raw.input, raw.prompt, raw.inputDetails);
    FirstUsageIntegerMeaning(raw.output, raw.completion, raw.outputDetails);
    var u := Parse(raw);
    var c := Settlement(u, reservedInput, reservedOutput, fallback);
    forall i: nat, o: nat | Explains(raw, i, o)
      ensures i == c.input && o == c.output
    {
      if ReportsInput(raw) {
        assert i == c.input;
      } else {
        var n :| n in Counts(raw.output, raw.completion, raw.outputDetails);
        assert o == n == c.output;
      }
    }
  }

  /** The charge is what the provider reports in each dimension it pins down, the reservation in each dimension about
      which it says nothing, and covers every explaining allocation when it reports a total; for a rejected usage it
      covers the reservation and every reported figure at once. */
  lemma SettlementNeverUnderstates(raw: RawUsage, reservedInput: nat, reservedOutput: nat, fallback: nat)
    ensures var u := Parse(raw);
            var c := Settlement(u, reservedInput, reservedOutput, fallback);
            && (u.invalid ==> c.input >= reservedInput && c.output >= reservedOutput && c.output >= fallback
                              && c.input >= u.input.GetOr(0) && c.output >= u.output.GetOr(0)
                              && c.input >= u.total.GetOr(0) && c.output >= u.total.GetOr(0))
            && (!u.invalid && !ReportsInput(raw) && !ReportsOutput(raw) ==>
                  c.input >= reservedInput && c.output >= reservedOutput && c.output >= fallback
                  && forall i: nat, o: nat | raw.RawUsage? && raw.total.Count? && Explains(raw, i, o) ::
                       c.input >= i && c.output >= o)
            && (forall i: nat, o: nat | !u.invalid && Explains(raw, i, o) ::
                  && (ReportsInput(raw) ==> c.input == i)
                  && (ReportsOutput(raw) ==> c.output == o))
            && (!u.invalid && u.total.None? && !ReportsInput(raw) ==> c.input == reservedInput)
            && (!u.invalid && u.total.None? && !ReportsOutput(raw) ==> c.output == Max(reservedOutput, fallback))
            && (forall i: nat, o: nat | !u.invalid && u.total.Some? && Explains(raw, i, o) :: c.input >= i && c.output >= o)
  {
    if raw.RawUsage? {
      FirstUsageIntegerMeaning(raw.input, raw.prompt, raw.inputDetails);
      FirstUsageIntegerMeaning(raw.output, raw.completion, raw.outputDetails);
      var u := Parse(raw);
      var c := Settlement(u, reservedInput, reservedOutput, fallback);
      forall i: nat, o: nat | !u.invalid && Explains(raw, i, o)
        ensures ReportsInput(raw) ==> c.input == i
        ensures ReportsOutput(raw) ==> c.output == o
      {
        if ReportsOutput(raw) {
          var n :| n in Counts(raw.output, raw.completion, raw.outputDetails);
          assert o == n == c.output;
        }
      }
    }
  }
}
