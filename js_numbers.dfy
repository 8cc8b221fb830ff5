/**
  The parts of JavaScript's number semantics the application relies on:
  the `number` values that matter here (finite, NaN, the two infinities),
  `parseFloat`, `parseInt` without a radix, `Math.ceil` and division.

  Finite values are exact reals: IEEE-754 rounding is not modelled.
*/
module JsNumbers {
  import opened Wrappers

  /** A JavaScript `number`. */
  datatype Num = NaN | PosInf | NegInf | Fin(value: real)

  /** The usual comparisons of JavaScript: every comparison with NaN is false. */
  predicate Greater(x: Num, bound: real) {
    match x
    case Fin(v) => v > bound
    case PosInf => true
    case _ => false
  }

  predicate AtMost(x: Num, bound: real) {
    match x
    case Fin(v) => v <= bound
    case NegInf => true
    case _ => false
  }

  /** `Math.ceil` on a finite value. */
  function Ceil(r: real): (c: int)
    ensures r <= c as real < r + 1.0
  {
    -((-r).Floor)
  }

  /** `a / b` on finite numbers: a zero divisor gives an infinity, or NaN for `0 / 0`. */
  function Divide(a: real, b: real): Num {
    if b != 0.0 then Fin(a / b)
    else if a > 0.0 then PosInf
    else if a < 0.0 then NegInf
    else NaN
  }

  /** `x * c` for a positive finite `c`: infinities and NaN stay as they are. */
  function TimesPositive(x: Num, c: real): Num
    requires c > 0.0
  {
    match x
    case Fin(v) => Fin(v * c)
    case _ => x
  }

  // ---------------------------------------------------------------------
  // Scanning helpers shared by parseFloat and parseInt
  // ---------------------------------------------------------------------

  /** StrWhiteSpaceChar of ECMAScript: white space and line terminators. */
  predicate IsWhiteSpace(c: char) {
    c == ' ' || c == '\t' || c == '\n' || c == '\r' || c == '\U{000B}' || c == '\U{000C}'
    || c == '\U{00A0}' || c == '\U{FEFF}' || c == '\U{1680}' || ('\U{2000}' <= c <= '\U{200A}')
    || c == '\U{2028}' || c == '\U{2029}' || c == '\U{202F}' || c == '\U{205F}' || c == '\U{3000}'
  }

  /** The position of the first character at or after `i` that is not white space. */
  function SkipWhiteSpace(s: string, i: nat): (j: nat)
    requires i <= |s|
    ensures i <= j <= |s|
    ensures j == |s| || !IsWhiteSpace(s[j])
    ensures forall k :: i <= k < j ==> IsWhiteSpace(s[k])
    decreases |s| - i
  {
    if i < |s| && IsWhiteSpace(s[i]) then SkipWhiteSpace(s, i + 1) else i
  }

  predicate IsDecimalDigit(c: char) { '0' <= c <= '9' }

  predicate IsHexDigit(c: char) {
    IsDecimalDigit(c) || ('a' <= c <= 'f') || ('A' <= c <= 'F')
  }

  function DecimalDigitValue(c: char): (d: nat)
    requires IsDecimalDigit(c)
    ensures d < 10
  {
    (c as int) - ('0' as int)
  }

  function HexDigitValue(c: char): (d: nat)
    requires IsHexDigit(c)
    ensures d < 16
  {
    if IsDecimalDigit(c) then DecimalDigitValue(c)
    else if 'a' <= c <= 'f' then (c as int) - ('a' as int) + 10
    else (c as int) - ('A' as int) + 10
  }

  /** Number of decimal digits in the run that starts at position `i`. */
  function DecimalSpan(s: string, i: nat): (n: nat)
    requires i <= |s|
    ensures i + n <= |s|
    ensures forall k :: i <= k < i + n ==> IsDecimalDigit(s[k])
    ensures i + n == |s| || !IsDecimalDigit(s[i + n])
    decreases |s| - i
  {
    if i < |s| && IsDecimalDigit(s[i]) then 1 + DecimalSpan(s, i + 1) else 0
  }

  /** Number of hexadecimal digits in the run that starts at position `i`. */
  function HexSpan(s: string, i: nat): (n: nat)
    requires i <= |s|
    ensures i + n <= |s|
    ensures forall k :: i <= k < i + n ==> IsHexDigit(s[k])
    ensures i + n == |s| || !IsHexDigit(s[i + n])
    decreases |s| - i
  {
    if i < |s| && IsHexDigit(s[i]) then 1 + HexSpan(s, i + 1) else 0
  }

  /** The value of the decimal digits `s[i..j]`, most significant first. */
  function DecimalValue(s: string, i: nat, j: nat): nat
    requires i <= j <= |s|
    requires forall k :: i <= k < j ==> IsDecimalDigit(s[k])
    decreases j
  {
    if j == i then 0 else DecimalValue(s, i, j - 1) * 10 + DecimalDigitValue(s[j - 1])
  }

  /** The value of the hexadecimal digits `s[i..j]`, most significant first. */
  function HexValue(s: string, i: nat, j: nat): nat
    requires i <= j <= |s|
    requires forall k :: i <= k < j ==> IsHexDigit(s[k])
    decreases j
  {
    if j == i then 0 else HexValue(s, i, j - 1) * 16 + HexDigitValue(s[j - 1])
  }

  function Pow10(n: nat): (p: nat)
    ensures p >= 1
  {
    if n == 0 then 1 else 10 * Pow10(n - 1)
  }

  /** 10 raised to an exponent of either sign. */
  function Scale(e: int): (p: real)
    ensures p > 0.0
  {
    if e >= 0 then Pow10(e) as real else 1.0 / Pow10(-e) as real
  }

  /** An optional '+' or '-' at position `i`: whether it is '-', and the position after it. */
  function SignAt(s: string, i: nat): (r: (bool, nat))
    requires i <= |s|
    ensures i <= r.1 <= |s|
  {
    if i < |s| && (s[i] == '+' || s[i] == '-') then (s[i] == '-', i + 1) else (false, i)
  }

  /**
    The exponent of an ExponentPart (`e` or `E`, an optional sign, digits) at
    position `i`; 0 when none starts there, in which case the longest numeric
    prefix simply ends before the `e`.
  */
  function ExponentAt(s: string, i: nat): int
    requires i <= |s|
  {
    if i < |s| && (s[i] == 'e' || s[i] == 'E') then
      var (negative, p) := SignAt(s, i + 1);
      var n := DecimalSpan(s, p);
      var value: int := DecimalValue(s, p, p + n);
      if n == 0 then 0 else if negative then -value else value
    else 0
  }

  // ---------------------------------------------------------------------
  // parseFloat
  // ---------------------------------------------------------------------

  /**
    `parseFloat(s)`: skip leading white space, then read the longest prefix
    that is a StrDecimalLiteral (an optional sign, then `Infinity`, or digits
    with an optional fraction and exponent); NaN when there is none. What
    follows the prefix is ignored.
  */
  function ParseFloat(s: string): Num {
    var (negative, p) := SignAt(s, SkipWhiteSpace(s, 0));
    if p < |s| && s[p] == 'I' && p + 8 <= |s| && s[p..p + 8] == "Infinity" then
      (if negative then NegInf else PosInf)
    else
      match UnsignedDecimalAt(s, p)
      case None => NaN
      case Some(magnitude) => Fin(if negative then -magnitude else magnitude)
  }

  /**
    The value of the longest unsigned decimal literal at position `p` (digits,
    an optional fraction, an optional exponent); None when there is no digit
    before or after the point.
  */
  function UnsignedDecimalAt(s: string, p: nat): Option<real>
    requires p <= |s|
  {
    var i := DecimalSpan(s, p);
    var hasDot := p + i < |s| && s[p + i] == '.';
    var f := if hasDot then DecimalSpan(s, p + i + 1) else 0;
    if i == 0 && f == 0 then None
    else
      var intPart := DecimalValue(s, p, p + i);
      var fraction := if hasDot then DecimalValue(s, p + i + 1, p + i + 1 + f) else 0;
      var exponent := ExponentAt(s, if hasDot then p + i + 1 + f else p + i);
      Some((intPart * Pow10(f) + fraction) as real / Pow10(f) as real * Scale(exponent))
  }

  /** A string that starts with a digit is read from its first character, with no sign. */
  lemma ParseFloatFromDigit(s: string)
    requires |s| > 0 && IsDecimalDigit(s[0])
    ensures UnsignedDecimalAt(s, 0).Some?
    ensures ParseFloat(s) == Fin(UnsignedDecimalAt(s, 0).value)
  {
    assert SkipWhiteSpace(s, 0) == 0;
  }

  /** The value of digits, a point and digits, with no exponent after them. */
  lemma UnsignedDecimalWithPoint(s: string, p: nat, i: nat, f: nat)
    requires p <= |s| && DecimalSpan(s, p) == i && p + i < |s| && s[p + i] == '.'
    requires i + f > 0 && DecimalSpan(s, p + i + 1) == f && p + i + 1 + f == |s|
    ensures UnsignedDecimalAt(s, p)
         == Some((DecimalValue(s, p, p + i) * Pow10(f) + DecimalValue(s, p + i + 1, |s|)) as real / Pow10(f) as real)
  {
    assert Scale(0) == 1.0;
  }

  /** The value of a string that ends with a run of digits. */
  lemma UnsignedDecimalDigitsOnly(s: string, p: nat, i: nat)
    requires p <= |s| && DecimalSpan(s, p) == i && i > 0 && p + i == |s|
    ensures UnsignedDecimalAt(s, p) == Some(DecimalValue(s, p, |s|) as real)
  {
    assert Scale(0) == 1.0;
  }

  lemma UnsignedMaxAmount()
    ensures UnsignedDecimalAt("9999999.99", 0) == Some(9999999.99)
  {
    UnsignedDecimalWithPoint("9999999.99", 0, 7, 2);
    assert DecimalValue("9999999.99", 0, 7) == 9999999;
    assert DecimalValue("9999999.99", 8, 10) == 99;
  }

  lemma ParseFloatMaxAmount()
    ensures ParseFloat("9999999.99") == Fin(9999999.99)
  {
    ParseFloatFromDigit("9999999.99");
    UnsignedMaxAmount();
  }

  lemma UnsignedTenMillion()
    ensures UnsignedDecimalAt("10000000", 0) == Some(10000000.0)
  {
    UnsignedDecimalDigitsOnly("10000000", 0, 8);
    assert DecimalValue("10000000", 0, 8) == 10000000;
  }

  lemma ParseFloatTenMillion()
    ensures ParseFloat("10000000") == Fin(10000000.0)
  {
    ParseFloatFromDigit("10000000");
    UnsignedTenMillion();
  }

  // ---------------------------------------------------------------------
  // parseInt without a radix
  // ---------------------------------------------------------------------

  /**
    `parseInt(s)` with no radix: skip leading white space, an optional sign,
    then a `0x`/`0X` prefix selects base 16; read the longest run of digits of
    the base. None stands for NaN (no digit at all). What follows is ignored.
  */
  function ParseInt(s: string): Option<int> {
    var (negative, p) := SignAt(s, SkipWhiteSpace(s, 0));
    var hex := p + 1 < |s| && s[p] == '0' && (s[p + 1] == 'x' || s[p + 1] == 'X');
    var q := if hex then p + 2 else p;
    var n := if hex then HexSpan(s, q) else DecimalSpan(s, q);
    if n == 0 then None
    else
      var magnitude: int := if hex then HexValue(s, q, q + n) else DecimalValue(s, q, q + n);
      Some(if negative then -magnitude else magnitude)
  }

  /** A string of decimal digits alone is read as its decimal value; a string without any digit is NaN. */
  lemma ParseIntDecimal(s: string)
    requires |s| > 0 && forall k :: 0 <= k < |s| ==> IsDecimalDigit(s[k])
    ensures ParseInt(s) == Some(DecimalValue(s, 0, |s|))
  {
    assert SkipWhiteSpace(s, 0) == 0 by {
      assert !IsWhiteSpace(s[0]);
    }
    assert DecimalSpan(s, 0) == |s|;
  }

  lemma ParseIntNoDigit()
    ensures ParseInt("") == None
    ensures ParseInt("abc") == None
  {
  }
}
