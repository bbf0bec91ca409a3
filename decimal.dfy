/**
 * Base-10 rendering and parsing of integers, as used by Ruby string
 * interpolation (`"feed:#{type}:#{id}"`), Go's `strconv.AppendInt(_, id, 10)`
 * and Go's `strconv.ParseInt(s, 10, 64)`.
 */
module Decimal {
  import opened Wrappers

  const INT64_MIN: int := -0x8000_0000_0000_0000
  const INT64_MAX: int := 0x7FFF_FFFF_FFFF_FFFF

  predicate IsInt64(n: int) {
    INT64_MIN <= n <= INT64_MAX
  }

  predicate IsDigit(c: char) {
    '0' <= c <= '9'
  }

  predicate AllDigits(s: string) {
    forall i :: 0 <= i < |s| ==> IsDigit(s[i])
  }

  function DigitChar(d: nat): (c: char)
    requires d < 10
    ensures IsDigit(c) && c as int - '0' as int == d
  {
    ('0' as int + d) as char
  }

  function DigitValue(c: char): (d: nat)
    requires IsDigit(c)
    ensures d < 10 && DigitChar(d) == c
  {
    c as int - '0' as int
  }

  /** The digits of `n`, most significant first, without leading zeros. */
  function ShowNat(n: nat): (s: string)
    ensures |s| >= 1 && AllDigits(s)
    ensures s[0] == '0' <==> n == 0
  {
    if n < 10 then [DigitChar(n)] else ShowNat(n / 10) + [DigitChar(n % 10)]
  }

  /** Base-10 rendering with a leading '-' for negative numbers. */
  function Show(n: int): (s: string)
    ensures |s| >= 1
    ensures s[0] == '-' <==> n < 0
    ensures n >= 0 ==> AllDigits(s)
    ensures n < 0 ==> |s| >= 2 && AllDigits(s[1..])
  {
    if n < 0 then "-" + ShowNat(-n) else ShowNat(n)
  }

  /** The value of a string of digits (leading zeros allowed). */
  function DigitsValue(s: string): nat
    requires AllDigits(s)
  {
    if s == [] then 0 else DigitsValue(s[..|s| - 1]) * 10 + DigitValue(s[|s| - 1])
  }

  lemma {:induction false} DigitsValueOfShowNat(n: nat)
    ensures DigitsValue(ShowNat(n)) == n
  {
    if n >= 10 {
      var s := ShowNat(n);
      assert s[..|s| - 1] == ShowNat(n / 10);
      DigitsValueOfShowNat(n / 10);
    }
  }

  /** `strconv.ParseInt(s, 10, 64)`: an optional sign, one or more digits, within int64. */
  function ParseInt64(s: string): (r: Option<int>)
    ensures r.Some? ==> IsInt64(r.value)
    ensures s == [] ==> r == None
  {
    if s == [] then None
    else
      var negative := s[0] == '-';
      var digits := if s[0] == '-' || s[0] == '+' then s[1..] else s;
      if digits == [] || !AllDigits(digits) then None
      else
        var magnitude: int := DigitsValue(digits);
        var v := if negative then -magnitude else magnitude;
        if IsInt64(v) then Some(v) else None
  }

  /** Parsing what `Show` renders gives the number back. */
  lemma ParseInt64OfShow(n: int)
    requires IsInt64(n)
    ensures ParseInt64(Show(n)) == Some(n)
  {
    var s := Show(n);
    if n < 0 {
      assert s[0] == '-' && s[1..] == ShowNat(-n);
      DigitsValueOfShowNat(-n);
      assert DigitsValue(s[1..]) == -n;
    } else {
      assert s == ShowNat(n) && s[0] != '-' && s[0] != '+';
      DigitsValueOfShowNat(n);
    }
  }

  lemma ShowNatInjective(x: nat, y: nat)
    requires ShowNat(x) == ShowNat(y)
    ensures x == y
  {
    DigitsValueOfShowNat(x);
    DigitsValueOfShowNat(y);
  }

  /** Distinct numbers have distinct renderings. */
  lemma ShowInjective(a: int, b: int)
    requires Show(a) == Show(b)
    ensures a == b
  {
    if a < 0 {
      assert b < 0;
      assert ShowNat(-a) == Show(a)[1..] == Show(b)[1..] == ShowNat(-b);
      ShowNatInjective(-a, -b);
    } else {
      assert b >= 0;
      ShowNatInjective(a, b);
    }
  }
}
