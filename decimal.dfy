/**
 * Decimal integers as the handlers read and write them: `strconv.Atoi` turns a
 * path parameter into a Go `int` (64 bits), and `fmt.Sprintf("%d", n)` writes an
 * integer back (the same text as `strconv.Itoa`).
 */
module Decimal {
  import opened Wrappers

  /** The range of a 64-bit Go `int`, outside of which `Atoi` reports a range error. */
  const MinInt: int := -0x8000_0000_0000_0000
  const MaxInt: int := 0x7FFF_FFFF_FFFF_FFFF

  predicate IsDigit(c: char) {
    '0' <= c <= '9'
  }

  predicate IsSign(c: char) {
    c == '+' || c == '-'
  }

  predicate AllDigits(s: string) {
    forall i :: 0 <= i < |s| ==> IsDigit(s[i])
  }

  function DigitValue(c: char): nat
    requires IsDigit(c)
  {
    (c as int) - ('0' as int)
  }

  function DigitChar(d: nat): (c: char)
    requires d < 10
    ensures IsDigit(c) && DigitValue(c) == d
  {
    (('0' as int) + d) as char
  }

  /** The value of a run of decimal digits, most significant digit first. */
  function DigitsValue(s: string): nat
    requires AllDigits(s)
  {
    if s == [] then 0 else DigitsValue(s[..|s| - 1]) * 10 + DigitValue(s[|s| - 1])
  }

  /** The digits of n, without leading zeros. */
  function NatDigits(n: nat): (s: string)
    ensures |s| >= 1 && AllDigits(s)
    ensures n >= 1 ==> s[0] != '0'
    ensures n == 0 ==> s == "0"
  {
    if n < 10 then [DigitChar(n)] else NatDigits(n / 10) + [DigitChar(n % 10)]
  }

  /** `strconv.Itoa(n)`, also what `%d` prints: a minus sign for negatives, then the digits. */
  function Itoa(n: int): (s: string)
    ensures |s| >= 1
    ensures s[0] == '-' <==> n < 0
    ensures n == 0 ==> s == "0"
    ensures n > 0 ==> s[0] != '0'
    ensures n < 0 ==> |s| >= 2 && s[1] != '0'
  {
    if n < 0 then "-" + NatDigits(-n) else NatDigits(n)
  }

  /** The digits after the optional sign that `strconv.Atoi` accepts: a non-empty run (the magnitude is not bounded here). */
  function ParseDigits(s: string): (r: Option<nat>)
    ensures r.Some? <==> s != [] && AllDigits(s)
  {
    if s != [] && AllDigits(s) then Some(DigitsValue(s)) else None
  }

  /** An optional '+' or '-' followed by digits, with no bound on the magnitude. */
  function ParseInteger(s: string): Option<int> {
    if |s| > 0 && (s[0] == '+' || s[0] == '-') then
      match ParseDigits(s[1..])
      case None => None
      case Some(u) => Some(if s[0] == '-' then -(u as int) else u as int)
    else
      match ParseDigits(s)
      case None => None
      case Some(u) => Some(u)
  }

  /**
   * `strconv.Atoi`: a syntax error (empty text, a lone sign, any character that
   * is not a digit after the optional sign) or a value outside the 64-bit range
   * gives no integer.
   */
  function Atoi(s: string): (r: Option<int>)
    ensures r.Some? ==> MinInt <= r.value <= MaxInt
    ensures r.Some? ==> s != [] && (IsDigit(s[0]) || IsSign(s[0]))
    ensures r.Some? ==> forall i :: 0 <= i < |s| && !IsDigit(s[i]) ==> i == 0 && IsSign(s[i]) && |s| >= 2
  {
    match ParseInteger(s)
    case None => None
    case Some(n) => if MinInt <= n <= MaxInt then Some(n) else None
  }

  /**
   * A run of digits, bare or after a sign, reads as its decimal value exactly
   * when that value fits in 64 bits (the negative side reaches one further).
   */
  lemma AtoiDigits(d: string)
    requires d != [] && AllDigits(d)
    ensures Atoi(d) == (if DigitsValue(d) <= MaxInt then Some(DigitsValue(d)) else None)
    ensures Atoi("+" + d) == (if DigitsValue(d) <= MaxInt then Some(DigitsValue(d)) else None)
    ensures Atoi("-" + d) == (if DigitsValue(d) <= -MinInt then Some(-(DigitsValue(d) as int)) else None)
  {
    assert !IsSign(d[0]);
    assert ("+" + d)[1..] == d;
    assert ("-" + d)[1..] == d;
  }

  lemma {:induction false} NatDigitsValue(n: nat)
    ensures DigitsValue(NatDigits(n)) == n
  {
    if n >= 10 {
      var s := NatDigits(n);
      assert s[..|s| - 1] == NatDigits(n / 10);
      NatDigitsValue(n / 10);
    }
  }

  /** Reading back what `%d` wrote gives the same integer, whatever its size. */
  lemma {:induction false} ParseIntegerItoa(n: int)
    ensures ParseInteger(Itoa(n)) == Some(n)
  {
    var s := Itoa(n);
    if n < 0 {
      assert s[1..] == NatDigits(-n);
      NatDigitsValue(-n);
    } else {
      assert IsDigit(s[0]);
      NatDigitsValue(n);
    }
  }

  /** Every 64-bit integer survives `Atoi(Itoa(n))`. */
  lemma {:induction false} AtoiItoa(n: int)
    requires MinInt <= n <= MaxInt
    ensures Atoi(Itoa(n)) == Some(n)
  {
    ParseIntegerItoa(n);
  }

  /** Different integers are printed differently. */
  lemma {:induction false} ItoaInjective(a: int, b: int)
    requires Itoa(a) == Itoa(b)
    ensures a == b
  {
    ParseIntegerItoa(a);
    ParseIntegerItoa(b);
  }
}
