/** Decimal text of integers, as a JavaScript template literal renders a
    number such as `${n}`, and its inverse. */
module Decimal {

  predicate IsDigit(c: char) {
    '0' <= c <= '9'
  }

  function DigitChar(d: nat): (c: char)
    requires d < 10
    ensures IsDigit(c) && c as int - '0' as int == d
  {
    ('0' as int + d) as char
  }

  /** The digits of `n`, most significant first, without leading zeros. */
  function NatToString(n: nat): (s: string)
    ensures |s| > 0 && forall i :: 0 <= i < |s| ==> IsDigit(s[i])
    ensures |s| > 1 ==> s[0] != '0'
  {
    if n < 10 then [DigitChar(n)] else NatToString(n / 10) + [DigitChar(n % 10)]
  }

  /** `${n}` for an integer: a leading '-' for a negative value. */
  function IntToString(n: int): (s: string)
    ensures |s| > 0 && (s[0] == '-' <==> n < 0)
    ensures n >= 0 ==> (forall i :: 0 <= i < |s| ==> IsDigit(s[i])) && DigitsValue(s) == n
    ensures n < 0 ==> (forall i :: 1 <= i < |s| ==> IsDigit(s[i])) && DigitsValue(s[1..]) == -n
    ensures |s| > 1 ==> s[0] != '0'
    ensures n < 0 ==> |s| >= 2 && (|s| > 2 ==> s[1] != '0')
  {
    if n < 0 then
      DigitsValueOfNat(-n);
      var ds := NatToString(-n);
      assert ("-" + ds)[1..] == ds;
      "-" + ds
    else
      DigitsValueOfNat(n);
      NatToString(n)
  }

  function DigitsValue(s: string): (v: nat)
    requires forall i :: 0 <= i < |s| ==> IsDigit(s[i])
  {
    if |s| == 0 then 0
    else
      assert IsDigit(s[|s| - 1]);
      DigitsValue(s[..|s| - 1]) * 10 + (s[|s| - 1] as int - '0' as int)
  }

  lemma {:induction false} DigitsValueOfNat(n: nat)
    ensures DigitsValue(NatToString(n)) == n
  {
    if n >= 10 {
      var s := NatToString(n);
      assert s[..|s| - 1] == NatToString(n / 10);
      DigitsValueOfNat(n / 10);
    }
  }

  /** The length of the longest prefix of `s` made of digits. */
  function DigitRun(s: string): (k: nat)
    ensures k <= |s|
    ensures forall i :: 0 <= i < k ==> IsDigit(s[i])
    ensures k < |s| ==> !IsDigit(s[k])
  {
    if |s| == 0 || !IsDigit(s[0]) then 0
    else
      var k := DigitRun(s[1..]);
      assert forall i :: 1 <= i < k + 1 ==> s[i] == s[1..][i - 1];
      1 + k
  }

  lemma DigitRunStopsAt(ds: string, rest: string)
    requires forall i :: 0 <= i < |ds| ==> IsDigit(ds[i])
    requires |rest| > 0 && !IsDigit(rest[0])
    ensures DigitRun(ds + rest) == |ds|
  {
    var s := ds + rest;
    assert s[|ds|] == rest[0];
    assert forall i :: 0 <= i < |ds| ==> s[i] == ds[i];
  }

  /** Reads an integer written by IntToString at the front of `s`; returns
      the value and the text after it. */
  function ParseIntPrefix(s: string): (r: (int, string))
  {
    var neg := |s| > 0 && s[0] == '-';
    var t := if neg then s[1..] else s;
    var k := DigitRun(t);
    var v: int := DigitsValue(t[..k]);
    (if neg then -v else v, t[k..])
  }

  /** IntToString is undone by ParseIntPrefix when the text that follows does
      not start with a digit. */
  lemma IntRoundTrip(n: int, rest: string)
    requires |rest| > 0 && !IsDigit(rest[0])
    ensures ParseIntPrefix(IntToString(n) + rest) == (n, rest)
  {
    var m: nat := if n < 0 then -n else n;
    var ds := NatToString(m);
    DigitRunStopsAt(ds, rest);
    assert (ds + rest)[..|ds|] == ds;
    assert (ds + rest)[|ds|..] == rest;
    DigitsValueOfNat(m);
    if n < 0 {
      assert ("-" + ds + rest)[1..] == ds + rest;
    } else {
      assert (ds + rest)[0] == ds[0];
    }
  }
}
