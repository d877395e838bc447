/** Durable identifiers: attempt ids derived from a call id, and call ids derived from an operation scope. */
module AttemptIds {

  function Digit(d: nat): char
    requires d < 10
  {
    "0123456789"[d]
  }

  function Decimal(n: nat): string {
    if n < 10 then [Digit(n)] else Decimal(n / 10) + [Digit(n % 10)]
  }

  /** The physical attempt `number` of the logical call `callId`. */
  function AttemptName(callId: string, number: nat): string {
    callId + "-a" + Decimal(number)
  }

  lemma {:induction false} DecimalHasOnlyDigits(n: nat)
    ensures Decimal(n) != "" && forall i | 0 <= i < |Decimal(n)| :: Decimal(n)[i] in "0123456789"
  {
    if n < 10 {
    } else {
      DecimalHasOnlyDigits(n / 10);
    }
  }

  lemma {:induction false} DecimalInjective(m: nat, n: nat)
    requires Decimal(m) == Decimal(n)
    ensures m == n
  {
    DecimalHasOnlyDigits(m / 10);
    DecimalHasOnlyDigits(n / 10);
    assert Decimal(m)[|Decimal(m)| - 1] == Digit(m % 10);
    assert Decimal(n)[|Decimal(n)| - 1] == Digit(n % 10);
    if m < 10 || n < 10 {
    } else {
      assert Decimal(m)[..|Decimal(m)| - 1] == Decimal(m / 10);
      assert Decimal(n)[..|Decimal(n)| - 1] == Decimal(n / 10);
      DecimalInjective(m / 10, n / 10);
    }
  }

  /** Splitting at the last occurrence of a separator whose first character the suffixes never use. */
  lemma SuffixesAgree(left: string, right: string, tail: string, tail': string)
    requires left + "-" + tail == right + "-" + tail'
    requires '-' !in tail && '-' !in tail'
    ensures left == right && tail == tail'
  {
    var whole := left + "-" + tail;
    assert whole == right + "-" + tail';
    assert whole[|left|] == '-' && whole[|right|] == '-';
    assert forall i | |left| < i < |whole| :: whole[i] == tail[i - |left| - 1];
    assert forall i | |right| < i < |whole| :: whole[i] == tail'[i - |right| - 1];
    assert |left| == |right|;
    assert left == whole[..|left|] == right;
    assert tail == whole[|left| + 1..] == tail';
  }

  /** Different calls or different attempt numbers never share a file. */
  lemma AttemptNameInjective(callId: string, number: nat, callId': string, number': nat)
    requires AttemptName(callId, number) == AttemptName(callId', number')
    ensures callId == callId' && number == number'
  {
    DecimalHasOnlyDigits(number);
    DecimalHasOnlyDigits(number');
    var tail, tail' := "a" + Decimal(number), "a" + Decimal(number');
    assert AttemptName(callId, number) == callId + "-" + tail;
    assert AttemptName(callId', number') == callId' + "-" + tail';
    SuffixesAgree(callId, callId', tail, tail');
    assert Decimal(number) == tail[1..] == tail'[1..] == Decimal(number');
    DecimalInjective(number, number');
  }
}
