/** Text measured in UTF-8 bytes. */
module Utf8 {

  function Width(c: char): nat {
    if c < '\U{80}' then 1
    else if c < '\U{800}' then 2
    else if c < '\U{10000}' then 3
    else 4
  }

  function Length(text: string): nat {
    if text == "" then 0 else Width(text[0]) + Length(text[1..])
  }

  predicate IsAscii(c: char) {
    c < '\U{80}'
  }

  function AsciiCount(text: string): nat {
    if text == "" then 0 else (if IsAscii(text[0]) then 1 else 0) + AsciiCount(text[1..])
  }

  lemma {:induction false} LengthConcat(left: string, right: string)
    ensures Length(left + right) == Length(left) + Length(right)
    ensures AsciiCount(left + right) == AsciiCount(left) + AsciiCount(right)
  {
    if left == "" {
      assert left + right == right;
    } else {
      assert (left + right)[1..] == left[1..] + right;
      LengthConcat(left[1..], right);
    }
  }

  lemma {:induction false} AsciiWithinLength(text: string)
    ensures AsciiCount(text) <= Length(text)
  {
    if text == "" {
    } else {
      AsciiWithinLength(text[1..]);
    }
  }

  /** The first code point that takes more than so many bytes, of which there are at most four (section 3 of RFC 3629). */
  function Limit(width: nat): int {
    if width == 0 then 0 else if width == 1 then 0x80 else if width == 2 then 0x800 else 0x1_0000
  }

  /** Every character takes the fewest bytes that can hold it, and one byte exactly when it is ASCII. */
  lemma WidthIsLeast(c: char)
    ensures 1 <= Width(c) <= 4 && Limit(Width(c) - 1) <= c as int
    ensures Width(c) < 4 ==> c as int < Limit(Width(c))
    ensures IsAscii(c) <==> Width(c) == 1
  {
  }

  /** The ASCII characters are counted one by one, and a text of them alone has as many bytes as characters. */
  lemma {:induction false} AsciiTexts(text: string)
    ensures AsciiCount(text) <= |text| <= Length(text)
    ensures (forall i | 0 <= i < |text| :: IsAscii(text[i])) <==> AsciiCount(text) == |text|
    ensures AsciiCount(text) == |text| <==> Length(text) == |text|
  {
    if text == "" {
    } else {
      AsciiTexts(text[1..]);
      WidthIsLeast(text[0]);
      assert forall i | 0 <= i < |text[1..]| :: text[1..][i] == text[i + 1];
      assert (forall i | 0 <= i < |text| :: IsAscii(text[i]))
        <==> IsAscii(text[0]) && forall i | 0 <= i < |text[1..]| :: IsAscii(text[1..][i]) by {
        if IsAscii(text[0]) && forall i | 0 <= i < |text[1..]| :: IsAscii(text[1..][i]) {
          forall i | 0 <= i < |text| ensures IsAscii(text[i]) {
            assert i > 0 ==> text[1..][i - 1] == text[i];
          }
        }
      }
    }
  }
}
