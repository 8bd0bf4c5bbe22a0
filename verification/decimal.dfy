/** Decimal text for numbers: `%d` / `%02d` formatting and Kotlin's
    `String.toLongOrNull()`, modelled for the ASCII digits '0'..'9' only;
    Kotlin also reads the other Unicode decimal digits. */
module Decimal {
  import opened Options
  import opened Numeric

  predicate IsDigit(c: char) { '0' <= c <= '9' }

  predicate AllDigits(s: string) {
    forall i :: 0 <= i < |s| ==> IsDigit(s[i])
  }

  function DigitChar(d: nat): (c: char)
    requires d < 10
    ensures IsDigit(c)
  {
    ('0' as int + d) as char
  }

  function DigitValue(c: char): nat
    requires IsDigit(c)
  {
    c as int - '0' as int
  }

  /** The value of a string of digits, most significant first. */
  function DigitsValue(s: string): nat
    requires AllDigits(s)
    decreases |s|
  {
    if |s| == 0 then 0 else DigitsValue(s[..|s| - 1]) * 10 + DigitValue(s[|s| - 1])
  }

  /** `%d` of a non-negative number: no leading zeros, at least one digit. */
  function NatToDecimal(n: nat): (r: string)
    ensures |r| >= 1 && AllDigits(r)
    decreases n
  {
    if n < 10 then [DigitChar(n)] else NatToDecimal(n / 10) + [DigitChar(n % 10)]
  }

  /** `%d` (and `Long.toString()`): a minus sign before negative numbers. */
  function IntToDecimal(n: int): string {
    if n < 0 then "-" + NatToDecimal(-n) else NatToDecimal(n)
  }

  /** `%02d`: zero-padded to width two; the sign counts towards the width. */
  function Pad2(n: int): string {
    if 0 <= n < 10 then "0" + NatToDecimal(n) else IntToDecimal(n)
  }

  /** `String.toLongOrNull()`: an optional sign then at least one digit, and
      the value must fit in a `Long`; anything else is `null`. */
  function ParseLong(s: string): (r: Option<int>)
    ensures r.Some? ==> IsLong(r.value) && |s| >= 1
  {
    if |s| == 0 then None
    else if s[0] == '-' || s[0] == '+' then
      var body := s[1..];
      if |body| == 0 || !AllDigits(body) then None
      else
        var v: int := if s[0] == '-' then -(DigitsValue(body) as int) else DigitsValue(body);
        if IsLong(v) then Some(v) else None
    else if AllDigits(s) && IsLong(DigitsValue(s)) then Some(DigitsValue(s))
    else None
  }

  /** Reading back the digits printed for `n` gives `n`. */
  lemma {:induction false} DigitsValueOfDecimal(n: nat)
    ensures DigitsValue(NatToDecimal(n)) == n
    decreases n
  {
    var s := NatToDecimal(n);
    if n >= 10 {
      DigitsValueOfDecimal(n / 10);
      assert s[..|s| - 1] == NatToDecimal(n / 10);
    }
  }

  /** `toLongOrNull` inverts `toString` on the whole `Long` range. */
  lemma ParseLongOfDecimal(n: int)
    requires IsLong(n)
    ensures ParseLong(IntToDecimal(n)) == Some(n)
  {
    if n < 0 {
      DigitsValueOfDecimal(-n);
      assert IntToDecimal(n)[1..] == NatToDecimal(-n);
    } else {
      DigitsValueOfDecimal(n);
      assert IsDigit(IntToDecimal(n)[0]);
    }
  }

  /** A string holding any character other than a digit after an optional
      leading sign does not parse. */
  lemma ParseLongRejectsNonDigit(s: string, i: int)
    requires 0 <= i < |s| && !IsDigit(s[i])
    requires i > 0 || (s[0] != '-' && s[0] != '+')
    ensures ParseLong(s) == None
  {
    if i > 0 && (s[0] == '-' || s[0] == '+') {
      assert !IsDigit(s[1..][i - 1]);
    }
  }
}
