/**
 * The text formatting the core relies on: decimal rendering of integers
 * (string interpolation and `%d`), the two-digit zero pad of `%02d`, the
 * `"%d:%02d"` minutes/seconds layout, and a model of `String.capitalized`.
 */
module Format {

  predicate IsDigit(c: char) {
    '0' <= c <= '9'
  }

  predicate AllDigits(s: string) {
    forall i :: 0 <= i < |s| ==> IsDigit(s[i])
  }

  function DigitChar(d: nat): (c: char)
    requires d < 10
    ensures IsDigit(c) && c as int - '0' as int == d
  {
    ('0' as int + d) as char
  }

  /** The number a string of decimal digits denotes (the inverse of NatToString). */
  function DigitsValue(s: string): nat
    requires AllDigits(s)
  {
    if s == [] then 0
    else 10 * DigitsValue(s[..|s| - 1]) + (s[|s| - 1] as int - '0' as int)
  }

  /** Decimal rendering of a non-negative integer, without leading zeros. */
  function NatToString(n: nat): (r: string)
    ensures |r| >= 1 && AllDigits(r)
    ensures r[0] == '0' ==> r == "0"
    ensures |r| == 1 <==> n < 10
    ensures 10 <= n < 100 ==> |r| == 2
  {
    if n < 10 then [DigitChar(n)] else NatToString(n / 10) + [DigitChar(n % 10)]
  }

  lemma {:induction false} NatToStringRoundTrip(n: nat)
    ensures DigitsValue(NatToString(n)) == n
  {
    if n >= 10 {
      var r := NatToString(n);
      assert r[..|r| - 1] == NatToString(n / 10);
      NatToStringRoundTrip(n / 10);
    }
  }

  lemma NatToStringInjective(a: nat, b: nat)
    requires NatToString(a) == NatToString(b)
    ensures a == b
  {
    NatToStringRoundTrip(a);
    NatToStringRoundTrip(b);
  }

  /** `%02d` for a value below 100: always exactly two digits. */
  function Pad2(n: nat): (r: string)
    requires n < 100
    ensures |r| == 2 && AllDigits(r)
    ensures DigitsValue(r) == n
  {
    NatToStringRoundTrip(n);
    if n < 10 then
      var r := "0" + NatToString(n);
      assert r[..1] == "0";
      r
    else NatToString(n)
  }

  /**
   * `r` reads "m:ss": decimal minutes without leading zeros, a colon,
   * exactly two second digits below 60, and together they make `n` seconds.
   */
  predicate ShowsMinutesSeconds(r: string, n: nat) {
    |r| >= 4 && r[|r| - 3] == ':'
    && (r[0] == '0' ==> |r| == 4)
    && AllDigits(r[..|r| - 3]) && AllDigits(r[|r| - 2..])
    && DigitsValue(r[|r| - 2..]) < 60
    && DigitsValue(r[..|r| - 3]) * 60 + DigitsValue(r[|r| - 2..]) == n
  }

  /** `String(format: "%d:%02d", n / 60, n % 60)`. */
  function MinutesSeconds(n: nat): (r: string)
    ensures ShowsMinutesSeconds(r, n)
    ensures DigitsValue(r[..|r| - 3]) == n / 60 && DigitsValue(r[|r| - 2..]) == n % 60
  {
    var m := NatToString(n / 60);
    var s := Pad2(n % 60);
    NatToStringRoundTrip(n / 60);
    var r := m + ":" + s;
    assert r[..|r| - 3] == m && r[|r| - 2..] == s && r[0] == m[0];
    r
  }

  lemma MinutesSecondsInjective(a: nat, b: nat)
    requires MinutesSeconds(a) == MinutesSeconds(b)
    ensures a == b
  {
  }

  function ToUpper(c: char): (u: char)
    ensures u == ' ' <==> c == ' '
    ensures !('a' <= u <= 'z')
    ensures !('a' <= c <= 'z') ==> u == c
  {
    if 'a' <= c <= 'z' then (c as int - 32) as char else c
  }

  function ToLower(c: char): (l: char)
    ensures l == ' ' <==> c == ' '
    ensures !('A' <= l <= 'Z')
    ensures !('A' <= c <= 'Z') ==> l == c
  {
    if 'A' <= c <= 'Z' then (c as int + 32) as char else c
  }

  /** Capitalises `s`, where `atStart` says whether s[0] begins a word. */
  function CapitalizeFrom(s: string, atStart: bool): (r: string)
    ensures |r| == |s|
    ensures |s| > 0 ==> r[0] == if atStart then ToUpper(s[0]) else ToLower(s[0])
    ensures forall i :: 0 < i < |s| ==>
      r[i] == if s[i - 1] == ' ' then ToUpper(s[i]) else ToLower(s[i])
  {
    if s == [] then [] else [if atStart then ToUpper(s[0]) else ToLower(s[0])] + CapitalizeFrom(s[1..], s[0] == ' ')
  }

  /**
   * `String.capitalized`: the first letter of every word upper case, every
   * other letter lower case; words are separated by spaces.
   */
  function Capitalized(s: string): (r: string)
    ensures |r| == |s|
    ensures forall i :: 0 <= i < |s| ==>
      r[i] == if i == 0 || s[i - 1] == ' ' then ToUpper(s[i]) else ToLower(s[i])
  {
    CapitalizeFrom(s, true)
  }

  lemma CapitalizedIdempotent(s: string)
    ensures Capitalized(Capitalized(s)) == Capitalized(s)
  {
    var r := Capitalized(s);
    forall i | 0 <= i < |s|
      ensures Capitalized(r)[i] == r[i]
    {
      if i > 0 {
        var j := i - 1;
        assert r[j] == if j == 0 || s[j - 1] == ' ' then ToUpper(s[j]) else ToLower(s[j]);
        assert r[j] == ' ' <==> s[j] == ' ';
      }
    }
  }
}
