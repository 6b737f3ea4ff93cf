/**
 * The part of JavaScript's number semantics the thread poller depends on:
 * `Number(str)` (which yields `NaN` for non-numeric text), truthiness
 * (`0` and `NaN` are falsy), comparisons (every comparison with `NaN` is
 * false) and printing a number inside a template literal.
 * Only integers are modelled: response numbers are decimal integers.
 */
module JsNumber {

  datatype Num = NaN | Int(value: int)

  /** `!!n` */
  predicate Truthy(n: Num) {
    n.Int? && n.value != 0
  }

  /** `a > b` */
  predicate Greater(a: Num, b: Num) {
    a.Int? && b.Int? && a.value > b.value
  }

  /** `a < k` for an integer constant `k` */
  predicate LessThan(a: Num, k: int) {
    a.Int? && a.value < k
  }

  /** `a >= k` for an integer constant `k` */
  predicate AtLeast(a: Num, k: int) {
    a.Int? && a.value >= k
  }

  predicate IsDigit(c: char) {
    '0' <= c <= '9'
  }

  predicate AllDigits(s: string) {
    forall k :: 0 <= k < |s| ==> IsDigit(s[k])
  }

  function DigitValue(c: char): (d: nat)
    requires IsDigit(c)
    ensures d < 10
  {
    c as int - '0' as int
  }

  function DigitChar(d: nat): (c: char)
    requires d < 10
    ensures IsDigit(c) && DigitValue(c) == d
  {
    ('0' as int + d) as char
  }

  /** The value of a decimal digit string, most significant digit first. */
  function ParseDigits(s: string): (r: nat)
    requires AllDigits(s)
  {
    if s == [] then 0 else ParseDigits(s[..|s| - 1]) * 10 + DigitValue(s[|s| - 1])
  }

  /**
   * `Number(s)` for the strings a board can put in a response-number field:
   * the empty string is 0, an optional sign followed by decimal digits is
   * that integer, anything else is `NaN`.
   */
  function ToNumber(s: string): (n: Num)
    ensures s == "" ==> n == Int(0)
    ensures s != "" && AllDigits(s) ==> n == Int(ParseDigits(s))
    ensures n.NaN? ==> s != "" && !AllDigits(s)
  {
    if s == "" then Int(0)
    else if AllDigits(s) then Int(ParseDigits(s))
    else if |s| > 1 && s[0] == '-' && AllDigits(s[1..]) then Int(0 - ParseDigits(s[1..]) as int)
    else if |s| > 1 && s[0] == '+' && AllDigits(s[1..]) then Int(ParseDigits(s[1..]))
    else NaN
  }

  /** Decimal digits of a natural number, without leading zeros. */
  function NatToString(n: nat): (s: string)
    ensures |s| > 0 && AllDigits(s)
  {
    if n < 10 then [DigitChar(n)] else NatToString(n / 10) + [DigitChar(n % 10)]
  }

  /** `${n}` in a template literal. */
  function NumToString(n: Num): (r: string) {
    match n
    case NaN => "NaN"
    case Int(i) => if i < 0 then "-" + NatToString(-i) else NatToString(i)
  }

  lemma {:induction false} ParseNatToString(n: nat)
    ensures ParseDigits(NatToString(n)) == n
  {
    if n >= 10 {
      var s := NatToString(n);
      ParseNatToString(n / 10);
      assert s[..|s| - 1] == NatToString(n / 10);
    }
  }

  /** Printing a number and reading it back with `Number(...)` gives the number again. */
  lemma NumberRoundTrip(n: Num)
    ensures ToNumber(NumToString(n)) == n
  {
    match n
    case NaN =>
      assert !IsDigit(NumToString(n)[0]);
    case Int(i) =>
      if i < 0 {
        var t := NatToString(-i);
        ParseNatToString(-i);
        assert !IsDigit(NumToString(n)[0]);
        assert NumToString(n)[1..] == t;
      } else {
        ParseNatToString(i);
      }
  }
}
