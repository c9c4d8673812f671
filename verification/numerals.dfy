/** Decimal numerals as Java writes and reads them: `Integer.toString` (used
    when a year is concatenated onto a boundary template) and
    `Long.parseLong` (used to read a client id out of a batch URL). */
module Numerals {
  import opened Results

  const LONG_MIN: int := -0x8000_0000_0000_0000
  const LONG_MAX: int := 0x7FFF_FFFF_FFFF_FFFF

  predicate IsDigit(c: char)
  {
    '0' <= c <= '9'
  }

  function DigitValue(c: char): (d: int)
    requires IsDigit(c)
    ensures 0 <= d < 10
  {
    c as int - '0' as int
  }

  function DigitChar(d: int): (c: char)
    requires 0 <= d < 10
    ensures IsDigit(c) && DigitValue(c) == d
  {
    ('0' as int + d) as char
  }

  predicate AllDigits(s: string)
  {
    forall i :: 0 <= i < |s| ==> IsDigit(s[i])
  }

  /** Decimal digits of a natural number, most significant first, no leading zeros. */
  function NatToString(n: nat): (s: string)
    ensures |s| >= 1 && AllDigits(s)
    ensures n > 0 ==> s[0] != '0'
  {
    if n < 10 then [DigitChar(n)] else NatToString(n / 10) + [DigitChar(n % 10)]
  }

  /** `Integer.toString(n)`: a minus sign for negative values, then the digits. */
  function IntToString(n: int): (s: string)
    ensures |s| >= 1
    ensures n >= 0 ==> AllDigits(s)
    ensures n < 0 ==> s[0] == '-' && AllDigits(s[1..])
  {
    if n < 0 then "-" + NatToString(-n) else NatToString(n)
  }

  /** The value of a string of decimal digits. */
  function DigitsValue(s: string): (v: nat)
    requires AllDigits(s)
  {
    if |s| == 0 then 0 else DigitsValue(s[..|s| - 1]) * 10 + DigitValue(s[|s| - 1])
  }

  datatype NumberFormatError = NumberFormatError(input: string)

  /** `Long.parseLong(s)`: an optional leading sign, at least one decimal digit,
      and a value inside the 64-bit range; anything else is a
      NumberFormatException. */
  function ParseLong(s: string): (r: Result<int, NumberFormatError>)
    ensures r.Ok? ==> LONG_MIN <= r.value <= LONG_MAX
    ensures |s| == 0 ==> r.Err?
    ensures (exists i :: 1 <= i < |s| && !IsDigit(s[i])) ==> r.Err?
    ensures |s| > 0 && !IsDigit(s[0]) && s[0] != '-' && s[0] != '+' ==> r.Err?
    ensures r.Ok? && s[0] != '-' ==> r.value >= 0
  {
    if |s| == 0 then Err(NumberFormatError(s))
    else
      var negative := s[0] == '-';
      var digits := if s[0] == '-' || s[0] == '+' then s[1..] else s;
      if |digits| == 0 || !AllDigits(digits) then Err(NumberFormatError(s))
      else
        var v: int := if negative then 0 - (DigitsValue(digits) as int) else DigitsValue(digits) as int;
        if v < LONG_MIN || v > LONG_MAX then Err(NumberFormatError(s)) else Ok(v)
  }

  lemma {:induction false} DigitsValueOfNat(n: nat)
    ensures DigitsValue(NatToString(n)) == n
  {
    if n >= 10 {
      var s := NatToString(n / 10);
      var c := DigitChar(n % 10);
      assert (s + [c])[..|s + [c]| - 1] == s;
      DigitsValueOfNat(n / 10);
    }
  }

  /** Reading back what `Integer.toString` wrote gives the same number. */
  lemma ParseLongIntToString(n: int)
    requires LONG_MIN <= n <= LONG_MAX
    ensures ParseLong(IntToString(n)) == Ok(n)
  {
    var s := IntToString(n);
    if n < 0 {
      var t := NatToString(-n);
      DigitsValueOfNat(-n);
      assert s == "-" + t;
      assert s[0] == '-' && s[1..] == t;
    } else {
      var t := NatToString(n);
      DigitsValueOfNat(n);
      assert s == t && IsDigit(s[0]);
    }
  }
}
