/** Decimal text for Swift's `Int`: string interpolation `"\(n)"` renders an
    integer, and `Int(s)` (Swift 2) or `s.toInt()` (Swift 1.2) parses one back. */
module Decimal {
  import opened Wrappers

  /** Swift's `Int` on a 64-bit platform. */
  const IntMin: int := -0x8000_0000_0000_0000
  const IntMax: int := 0x7FFF_FFFF_FFFF_FFFF

  predicate InRange(n: int) {
    IntMin <= n <= IntMax
  }

  predicate IsDigit(c: char) {
    '0' <= c <= '9'
  }

  predicate AllDigits(s: string) {
    forall i :: 0 <= i < |s| ==> IsDigit(s[i])
  }

  function DigitChar(d: nat): (c: char)
    requires d < 10
    ensures IsDigit(c)
  {
    (('0' as int) + d) as char
  }

  function DigitValue(c: char): (d: nat)
    requires IsDigit(c)
    ensures d < 10
    ensures DigitChar(d) == c
  {
    (c as int) - ('0' as int)
  }

  /** The digits of `n`, most significant first, with no leading zero. */
  function ShowNat(n: nat): (s: string)
    ensures |s| >= 1 && AllDigits(s)
    ensures |s| > 1 ==> s[0] != '0'
    decreases n
  {
    if n < 10 then [DigitChar(n)] else ShowNat(n / 10) + [DigitChar(n % 10)]
  }

  /** Interpolation of an `Int`: a leading `-` for negative values. */
  function Show(n: int): (s: string)
    ensures |s| >= 1
    ensures s[0] == '-' <==> n < 0
    ensures var d := if n < 0 then s[1..] else s;
      && |d| >= 1 && AllDigits(d)
      && (|d| > 1 ==> d[0] != '0')
      && DigitsValue(d) == (if n < 0 then -n else n)
  {
    if n < 0 then
      DigitsValueOfShowNat(-n);
      assert ("-" + ShowNat(-n))[1..] == ShowNat(-n);
      "-" + ShowNat(-n)
    else
      DigitsValueOfShowNat(n);
      ShowNat(n)
  }

  /** The value of a string of decimal digits, read left to right. */
  function DigitsValue(s: string): nat
    requires AllDigits(s)
  {
    if |s| == 0 then 0 else DigitsValue(s[..|s| - 1]) * 10 + DigitValue(s[|s| - 1])
  }

  /** `Int(s)`: an optional sign followed by one or more decimal digits whose
      value fits in `Int`; anything else is `nil`. */
  function Parse(s: string): (r: Option<int>)
    ensures r.Some? ==> InRange(r.value)
    ensures r.Some? ==> |s| >= 1 && AllDigits(if s[0] == '-' || s[0] == '+' then s[1..] else s)
    ensures r.Some? && r.value < 0 ==> s[0] == '-'
    ensures |s| == 0 || !IsDigit(s[|s| - 1]) ==> r == None
    ensures 1 <= |s| && AllDigits(s) && InRange(DigitsValue(s)) ==> r == Some(DigitsValue(s))
  {
    if |s| == 0 then None
    else
      assert AllDigits(s) ==> IsDigit(s[0]);
      var negative := s[0] == '-';
      var digits := if s[0] == '-' || s[0] == '+' then s[1..] else s;
      if |digits| == 0 || !AllDigits(digits) then None
      else
        var v: int := if negative then 0 - DigitsValue(digits) as int else DigitsValue(digits);
        if InRange(v) then Some(v) else None
  }

  lemma {:induction false} DigitsValueOfShowNat(n: nat)
    ensures DigitsValue(ShowNat(n)) == n
    decreases n
  {
    if n >= 10 {
      var s := ShowNat(n);
      assert s[..|s| - 1] == ShowNat(n / 10);
      DigitsValueOfShowNat(n / 10);
    }
  }

  /** Parsing what interpolation printed gives back the same `Int`. */
  lemma ParseShow(n: int)
    requires InRange(n)
    ensures Parse(Show(n)) == Some(n)
  {
  }
}
