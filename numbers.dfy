/**
 * JavaScript's `Number(s)` restricted to integer literals, the `isNaN` test
 * on its result, and the decimal rendering a template literal gives an
 * integral number (`${n}`).
 */
module Numbers {
  import opened Wrappers

  predicate IsDigit(c: char) {
    '0' <= c <= '9'
  }

  predicate AllDigits(s: string) {
    forall k :: 0 <= k < |s| ==> IsDigit(s[k])
  }

  predicate AllZeros(s: string) {
    forall k :: 0 <= k < |s| ==> s[k] == '0'
  }

  function DigitValue(c: char): (d: nat)
    requires IsDigit(c)
    ensures d < 10
  {
    c as int - '0' as int
  }

  function DigitChar(d: nat): (c: char)
    requires d < 10
    ensures IsDigit(c) && DigitValue(c) == d
  {
    (d + '0' as int) as char
  }

  /** The value of a string of decimal digits, most significant first. */
  function DigitsValue(s: string): nat
    requires AllDigits(s)
  {
    if s == [] then 0 else 10 * DigitsValue(s[..|s| - 1]) + DigitValue(s[|s| - 1])
  }

  /** Decimal rendering of a natural number: canonical (no leading zero
      unless the number is zero) and read back as the same number. */
  function NatToString(n: nat): (r: string)
    ensures |r| >= 1 && AllDigits(r)
    ensures r[0] == '0' ==> n == 0 && r == "0"
    ensures DigitsValue(r) == n
  {
    if n < 10 then [DigitChar(n)]
    else
      var r := NatToString(n / 10) + [DigitChar(n % 10)];
      assert r[..|r| - 1] == NatToString(n / 10);
      r
  }

  /** `${n}` for an integral number: a minus sign before the digits of a negative one. */
  function IntToString(i: int): (r: string)
    ensures r != [] && (r[0] == '-' <==> i < 0)
    ensures i >= 0 ==> AllDigits(r) && DigitsValue(r) == i
    ensures i >= 0 && r[0] == '0' ==> r == "0"
    ensures i < 0 ==> AllDigits(r[1..]) && DigitsValue(r[1..]) == -i && r[1] != '0'
  {
    if i < 0 then
      var r := "-" + NatToString(-i);
      assert r[1..] == NatToString(-i);
      r
    else NatToString(i)
  }

  /** A sign character, as `Number` accepts before the digits. */
  predicate IsSign(c: char) {
    c == '-' || c == '+'
  }

  /** `Number(s)` where the result is not NaN, for an integer literal with an
      optional sign; the empty string converts to 0. Anything else is
      reported as not numeric. */
  function ParseNumber(s: string): (r: Option<int>)
    ensures r.Some? <==> s == [] || AllDigits(s) || (|s| > 1 && IsSign(s[0]) && AllDigits(s[1..]))
    ensures s == [] ==> r == Some(0)
    ensures s != [] && AllDigits(s) ==> r == Some(DigitsValue(s))
    ensures r.Some? && |s| > 1 && IsSign(s[0]) ==>
      r.value == (if s[0] == '-' then -1 else 1) * DigitsValue(s[1..])
  {
    if s == [] then Some(0)
    else if IsSign(s[0]) then
      if |s| > 1 && AllDigits(s[1..]) then
        var magnitude: int := DigitsValue(s[1..]);
        Some(if s[0] == '-' then -magnitude else magnitude)
      else None
    else if AllDigits(s) then Some(DigitsValue(s))
    else None
  }

  /** A digit string without its leading zeros, keeping the last digit. */
  function StripZeros(s: string): string {
    if |s| > 1 && s[0] == '0' then StripZeros(s[1..]) else s
  }

  lemma {:induction false} ZeroValueIsAllZeros(s: string)
    requires AllDigits(s)
    ensures DigitsValue(s) == 0 <==> AllZeros(s)
  {
    if s != [] {
      ZeroValueIsAllZeros(s[..|s| - 1]);
      if AllZeros(s) {
        assert AllZeros(s[..|s| - 1]);
      }
    }
  }

  lemma {:induction false} StripZerosOfZeros(p: string, c: char)
    requires AllZeros(p)
    ensures StripZeros(p + [c]) == [c]
  {
    if p != [] {
      assert (p + [c])[1..] == p[1..] + [c];
      StripZerosOfZeros(p[1..], c);
    }
  }

  lemma {:induction false} StripZerosAppend(p: string, c: char)
    requires p != [] && !AllZeros(p)
    ensures StripZeros(p + [c]) == StripZeros(p) + [c]
  {
    if p[0] == '0' {
      assert (p + [c])[1..] == p[1..] + [c];
      StripZerosAppend(p[1..], c);
    }
  }

  /** Rendering the value of a digit string gives the string without its
      leading zeros: "007" renders as "7", "000" as "0". */
  lemma {:induction false} DigitsRendering(s: string)
    requires s != [] && AllDigits(s)
    ensures NatToString(DigitsValue(s)) == StripZeros(s)
  {
    var p, c := s[..|s| - 1], s[|s| - 1];
    assert s == p + [c];
    var v := DigitsValue(p);
    if p == [] {
    } else if v == 0 {
      ZeroValueIsAllZeros(p);
      StripZerosOfZeros(p, c);
    } else {
      ZeroValueIsAllZeros(p);
      DigitsRendering(p);
      StripZerosAppend(p, c);
      var n := DigitsValue(s);
      assert n / 10 == v && n % 10 == DigitValue(c);
    }
  }

  /** What an `eq` clause shows for a numeric term: the digits without leading
      zeros, with a minus sign only for a negative non-zero value, never a plus sign. */
  lemma NumberRendering(s: string)
    requires s != [] && ParseNumber(s).Some?
    ensures var digits := if s[0] == '-' || s[0] == '+' then s[1..] else s;
      IntToString(ParseNumber(s).value)
        == (if s[0] == '-' && !AllZeros(digits) then "-" else "") + StripZeros(digits)
  {
    var digits := if s[0] == '-' || s[0] == '+' then s[1..] else s;
    DigitsRendering(digits);
    ZeroValueIsAllZeros(digits);
  }
}
