/** Decimal text of integers: fmt's %d and strconv.ParseInt with base 10 and 64 bits. */
module Decimal {
  import opened Base

  const MIN_INT64 := -0x8000_0000_0000_0000
  const MAX_INT64 := 0x7fff_ffff_ffff_ffff

  const DIGITS := "0123456789"

  predicate IsDigit(c: char) {
    '0' <= c <= '9'
  }

  function DigitValue(c: char): int {
    c as int - '0' as int
  }

  function Digits(n: nat): (s: string)
    ensures |s| > 0 && forall i :: 0 <= i < |s| ==> IsDigit(s[i])
  {
    if n < 10 then [DIGITS[n]] else Digits(n / 10) + [DIGITS[n % 10]]
  }

  function Format(n: int): string {
    if n < 0 then "-" + Digits(-n) else Digits(n)
  }

  function ParseDigits(s: string): Option<int> {
    if s == [] then None
    else
      var c := s[|s| - 1];
      if !IsDigit(c) then None
      else if |s| == 1 then Some(DigitValue(c))
      else
        match ParseDigits(s[..|s| - 1])
        case None => None
        case Some(n) => Some(10 * n + DigitValue(c))
  }

  /** One optional sign, at least one digit, nothing else. */
  function ParseSigned(s: string): Option<int> {
    if s == [] then None
    else if s[0] == '-' then
      match ParseDigits(s[1..])
      case None => None
      case Some(n) => Some(-n)
    else
      match ParseDigits(if s[0] == '+' then s[1..] else s)
      case None => None
      case Some(n) => Some(n)
  }

  /** The value must fit 64 bits. */
  function ParseInt(s: string): Option<int> {
    match ParseSigned(s)
    case None => None
    case Some(v) => if MIN_INT64 <= v <= MAX_INT64 then Some(v) else None
  }

  lemma {:induction false} ParseDigitsOfDigits(n: nat)
    ensures ParseDigits(Digits(n)) == Some(n)
  {
    if n >= 10 {
      ParseDigitsOfDigits(n / 10);
      assert Digits(n)[..|Digits(n)| - 1] == Digits(n / 10);
    }
  }

  lemma ParseSignedOf(s: string, n: int)
    requires s != [] && IsDigit(s[0]) && ParseDigits(s) == Some(n)
    ensures ParseSigned(s) == Some(n) && ParseSigned("-" + s) == Some(-n)
  {
    assert ("-" + s)[1..] == s;
  }

  lemma ParseSignedFormat(n: int)
    ensures ParseSigned(Format(n)) == Some(n)
  {
    var m := if n < 0 then -n else n;
    ParseDigitsOfDigits(m);
    ParseSignedOf(Digits(m), m);
  }

  /** Printing and parsing are inverse on exactly the 64-bit integers. */
  lemma ParseFormat(n: int)
    ensures ParseInt(Format(n)) == Some(n) <==> MIN_INT64 <= n <= MAX_INT64
  {
    ParseSignedFormat(n);
  }

  predicate AllDigits(s: string) {
    s != "" && forall i :: 0 <= i < |s| ==> '0' <= s[i] <= '9'
  }

  lemma {:induction false} DigitsAccepted(s: string)
    ensures ParseDigits(s).Some? <==> AllDigits(s)
    ensures ParseDigits(s).Some? ==> ParseDigits(s).value >= 0
  {
    if |s| > 1 {
      DigitsAccepted(s[..|s| - 1]);
      assert s == s[..|s| - 1] + [s[|s| - 1]];
    }
  }

  /** What ParseInt accepts: digits, at least one, after at most one sign, within 64 bits; the sign decides the value's. */
  lemma AcceptedIff(s: string)
    ensures ParseSigned(s).Some? <==> AllDigits(if s != "" && (s[0] == '-' || s[0] == '+') then s[1..] else s)
    ensures ParseSigned(s).Some? ==> if s[0] == '-' then ParseSigned(s).value <= 0 else ParseSigned(s).value >= 0
    ensures ParseInt(s) == if ParseSigned(s).Some? && -9_223_372_036_854_775_808 <= ParseSigned(s).value <= 9_223_372_036_854_775_807
                           then ParseSigned(s) else None
  {
    DigitsAccepted(if s != "" && (s[0] == '-' || s[0] == '+') then s[1..] else s);
  }

  lemma {:induction false} DigitsPlain(n: nat)
    ensures Digits(n)[0] == '0' ==> n == 0 && Digits(n) == "0"
  {
    if n >= 10 {
      DigitsPlain(n / 10);
    }
  }

  /** The text is digits alone, after a minus sign for a negative number, without a leading zero. */
  lemma FormatPlain(n: int)
    ensures n < 0 <==> Format(n)[..1] == "-"
    ensures var digits := if n < 0 then Format(n)[1..] else Format(n);
            && |digits| > 0 && (forall i :: 0 <= i < |digits| ==> '0' <= digits[i] <= '9')
            && (digits[0] == '0' ==> n == 0 && digits == "0")
  {
    DigitsPlain(if n < 0 then -n else n);
  }

  /** Different integers print differently. */
  lemma FormatInjective(m: int, n: int)
    requires Format(m) == Format(n)
    ensures m == n
  {
    ParseSignedFormat(m);
    ParseSignedFormat(n);
  }
}
