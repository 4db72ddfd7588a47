/** Hexadecimal text as the Python tools read and write it: `int(text, 16)` and `'{:0wX}'.format(value)`. */
module Hex {

  predicate IsDigit(c: char) {
    '0' <= c <= '9' || 'A' <= c <= 'F' || 'a' <= c <= 'f'
  }

  predicate AllDigits(s: string) {
    forall i | 0 <= i < |s| :: IsDigit(s[i])
  }

  function DigitValue(c: char): (v: nat)
    requires IsDigit(c)
    ensures v < 16
  {
    if '0' <= c <= '9' then (c - '0') as nat
    else if 'A' <= c <= 'F' then 10 + (c - 'A') as nat
    else 10 + (c - 'a') as nat
  }

  /** `int(s, 16)`. Python raises ValueError on the empty string, so callers check for it first. */
  function Value(s: string): nat
    requires AllDigits(s)
  {
    if s == "" then 0 else 16 * Value(s[..|s| - 1]) + DigitValue(s[|s| - 1])
  }

  function DigitChar(v: nat): (c: char)
    requires v < 16
    ensures IsDigit(c) && DigitValue(c) == v
  {
    if v < 10 then '0' + v as char else 'A' + (v - 10) as char
  }

  /** `'{:0widthX}'.format(v)`: at least `width` digits, more when the value needs them. */
  function Format(v: nat, width: nat): (s: string)
    ensures AllDigits(s) && Value(s) == v && width <= |s|
    decreases v + width
  {
    if v == 0 && width == 0 then ""
    else Format(v / 16, if width == 0 then 0 else width - 1) + [DigitChar(v % 16)]
  }

  lemma FormatDigit(v: nat, width: nat)
    requires width > 0
    ensures Format(v, width) == Format(v / 16, width - 1) + [DigitChar(v % 16)]
    ensures Format(0, 0) == ""
  {
  }

  lemma ValueOfTwo(hi: char, lo: char)
    requires IsDigit(hi) && IsDigit(lo)
    ensures Value([hi, lo]) == 16 * DigitValue(hi) + DigitValue(lo)
  {
    assert [hi, lo][..1] == [hi] && [hi][..0] == "";
    assert Value([hi]) == DigitValue(hi);
  }

  /** The digits and what they stand for. */
  lemma DigitValues()
    ensures DigitValue('0') == 0 && DigitValue('9') == 9
    ensures DigitValue('A') == DigitValue('a') == 10 && DigitValue('F') == DigitValue('f') == 15
    ensures DigitChar(0) == '0' && DigitChar(9) == '9' && DigitChar(10) == 'A' && DigitChar(15) == 'F'
  {
  }

  function Pow16(n: nat): (p: nat)
    ensures 1 <= p
  {
    if n == 0 then 1 else 16 * Pow16(n - 1)
  }

  /** A field keeps its width exactly when the value fits; a larger value pushes every later field along. */
  lemma {:induction false} FormatWidth(v: nat, width: nat)
    ensures |Format(v, width)| == width <==> v < Pow16(width)
    decreases v + width
  {
    if v == 0 && width == 0 {
    } else if width == 0 {
      assert |Format(v, width)| > 0;
    } else {
      FormatWidth(v / 16, width - 1);
      assert v / 16 < Pow16(width - 1) <==> v < 16 * Pow16(width - 1);
    }
  }
}
