/**
 * `strtoul(s, &end, 10)` restricted to plain decimal digits: the value of the
 * longest leading run of digits, and the text left after it. With no leading
 * digit the value is 0 and nothing is consumed.
 */
module Decimal {

  predicate IsDigit(c: char) {
    '0' <= c <= '9'
  }

  predicate AllDigits(s: string) {
    forall i :: 0 <= i < |s| ==> IsDigit(s[i])
  }

  /** Value of a string of decimal digits, most significant first. */
  function Value(s: string): nat
    requires AllDigits(s)
  {
    if s == [] then 0 else 10 * Value(s[..|s| - 1]) + (s[|s| - 1] - '0') as nat
  }

  /** Length of the leading run of digits. */
  function DigitRun(s: string): (k: nat)
    ensures k <= |s|
    ensures forall i :: 0 <= i < k ==> IsDigit(s[i])
    ensures k < |s| ==> !IsDigit(s[k])
  {
    if s == [] || !IsDigit(s[0]) then 0 else 1 + DigitRun(s[1..])
  }

  /** The number `strtoul` reads and the text `end` points at. */
  function ParseUnsigned(s: string): (r: (nat, string))
    ensures r.1 == s[DigitRun(s)..]
    ensures AllDigits(s[..DigitRun(s)]) && r.0 == Value(s[..DigitRun(s)])
  {
    var k := DigitRun(s);
    assert AllDigits(s[..k]);
    (Value(s[..k]), s[k..])
  }

  /** Nothing is left over exactly when the whole text is digits, and then the value is the text's. */
  lemma ParseUnsignedWhole(s: string)
    ensures ParseUnsigned(s).1 == [] <==> AllDigits(s)
    ensures AllDigits(s) ==> ParseUnsigned(s).0 == Value(s)
  {
    var k := DigitRun(s);
    if AllDigits(s) {
      assert k == |s|;
      assert s[..k] == s;
    }
  }
}
