/** Decimal rendering and reading of integers, as PHP does when it interpolates
    an integer into a string or formats a date field. */
module Decimal {
  import opened Wrappers

  predicate IsDigit(c: char) {
    '0' <= c <= '9'
  }

  predicate AllDigits(s: string) {
    forall i :: 0 <= i < |s| ==> IsDigit(s[i])
  }

  function DigitChar(d: nat): (c: char)
    requires d < 10
    ensures IsDigit(c)
  {
    ['0', '1', '2', '3', '4', '5', '6', '7', '8', '9'][d]
  }

  function DigitValue(c: char): (d: nat)
    requires IsDigit(c)
    ensures d < 10
  {
    (c as int - '0' as int) as nat
  }

  lemma DigitCharValue(d: nat)
    requires d < 10
    ensures DigitValue(DigitChar(d)) == d
  {
  }

  /** The number a string of decimal digits denotes (most significant first). */
  function ValueOf(s: string): nat
    requires AllDigits(s)
  {
    if |s| == 0 then 0 else ValueOf(s[..|s| - 1]) * 10 + DigitValue(s[|s| - 1])
  }

  /** A decimal spelling without superfluous leading zeros: "0", "7", "120",
      but not "", "07" or "0120". */
  predicate Canonical(d: string) {
    AllDigits(d) && 1 <= |d| && (|d| > 1 ==> d[0] != '0')
  }

  /** The shortest decimal spelling of `n`: no leading zeros, "0" for zero. */
  function Digits(n: nat): (s: string)
    ensures Canonical(s)
    ensures ValueOf(s) == n
  {
    if n < 10 then
      DigitCharValue(n);
      [DigitChar(n)]
    else
      var prefix := Digits(n / 10);
      DigitCharValue(n % 10);
      var s := prefix + [DigitChar(n % 10)];
      assert s[..|s| - 1] == prefix;
      s
  }

  /** A canonical spelling is the one Digits produces for its value: no two
      canonical spellings denote the same number. */
  lemma {:induction false} DigitsOfValue(d: string)
    requires Canonical(d)
    ensures Digits(ValueOf(d)) == d
  {
    var n := ValueOf(d);
    var last := d[|d| - 1];
    var p := d[..|d| - 1];
    CharOfDigit(last);
    if |d| == 1 {
      assert n == DigitValue(last);
    } else {
      assert p[0] == d[0];
      PositiveValue(p);
      DigitsOfValue(p);
      assert n / 10 == ValueOf(p) && n % 10 == DigitValue(last);
      assert d == p + [last];
    }
  }

  lemma CharOfDigit(c: char)
    requires IsDigit(c)
    ensures DigitChar(DigitValue(c)) == c
  {
  }

  /** A digit string that does not start with '0' denotes a positive number. */
  lemma {:induction false} PositiveValue(d: string)
    requires AllDigits(d) && 1 <= |d| && d[0] != '0'
    ensures ValueOf(d) >= 1
  {
    if |d| > 1 {
      var p := d[..|d| - 1];
      assert p[0] == d[0];
      PositiveValue(p);
    }
  }

  function Pow10(k: nat): (p: nat)
    ensures p >= 1
  {
    if k == 0 then 1 else 10 * Pow10(k - 1)
  }

  /** A number below 10^k needs at most k digits (one for zero). */
  lemma {:induction false} DigitsLength(n: nat, k: nat)
    requires 1 <= k && n < Pow10(k)
    ensures |Digits(n)| <= k
  {
    if n >= 10 {
      assert k >= 2;
      DigitsLength(n / 10, k - 1);
    }
  }

  /** Left-pads `s` with zeros to at least `width` characters. */
  function PadZeros(s: string, width: nat): (r: string)
    requires AllDigits(s)
    ensures AllDigits(r)
    ensures |r| == if |s| < width then width else |s|
    ensures ValueOf(r) == ValueOf(s)
    ensures width <= |s| ==> r == s
    decreases width - |s|
  {
    if |s| >= width then s
    else
      LeadingZero(s);
      PadZeros(['0'] + s, width)
  }

  /** A leading zero does not change the value of a digit string. */
  lemma {:induction false} LeadingZero(s: string)
    requires AllDigits(s)
    ensures AllDigits(['0'] + s) && ValueOf(['0'] + s) == ValueOf(s)
  {
    var t := ['0'] + s;
    if |s| > 0 {
      assert t[..|t| - 1] == ['0'] + s[..|s| - 1];
      LeadingZero(s[..|s| - 1]);
    }
  }

  /** The spellings PHP gives integers: a canonical digit string, with a
      leading '-' for a negative number ("-0" is not one of them). */
  predicate IsIntText(s: string) {
    || Canonical(s)
    || (2 <= |s| && s[0] == '-' && Canonical(s[1..]) && s[1] != '0')
  }

  /** PHP's string form of an integer, with a leading '-' when negative. */
  function IntToString(i: int): (s: string)
    ensures IsIntText(s)
    ensures (s[0] == '-') <==> i < 0
    ensures ParseInt(s) == Some(i)
  {
    if i < 0 then
      var d := Digits(-i);
      assert ("-" + d)[1..] == d;
      "-" + d
    else Digits(i)
  }

  /** Every PHP integer spelling is the one IntToString gives its value. */
  lemma IntTextUnique(s: string)
    requires IsIntText(s)
    ensures ParseInt(s).Some? && IntToString(ParseInt(s).value) == s
  {
    if s[0] == '-' {
      var d := s[1..];
      PositiveValue(d);
      DigitsOfValue(d);
      assert s == "-" + d;
    } else {
      DigitsOfValue(s);
    }
  }

  /** Reads an optionally signed, non-empty run of decimal digits. */
  function ParseInt(s: string): (r: Option<int>)
    ensures r.Some? ==> 1 <= |s|
  {
    if 0 < |s| && s[0] == '-' then
      var t := s[1..];
      if 0 < |t| && AllDigits(t) then Some(-(ValueOf(t) as int)) else None
    else if 0 < |s| && AllDigits(s) then Some(ValueOf(s) as int)
    else None
  }
}
