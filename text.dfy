/** String helpers the source gets from JavaScript itself: number-to-string
    conversion, `toLowerCase`, and taking a value back out of a string template. */
module Text {
  import opened Wrappers

  predicate IsDigit(c: char) {
    '0' <= c <= '9'
  }

  function DigitChar(d: nat): (c: char)
    requires d < 10
    ensures IsDigit(c) && (c as int) - ('0' as int) == d
  {
    (('0' as int) + d) as char
  }

  /** Decimal numeral of n, with no leading zero; this is what JavaScript's
      Number-to-String gives for an integer up to 2^53, every one of which is
      a double printed exactly. */
  function NatText(n: nat): (r: string)
    ensures |r| >= 1
    ensures forall i :: 0 <= i < |r| ==> IsDigit(r[i])
    ensures r[0] == '0' ==> n == 0
    decreases n
  {
    if n < 10 then [DigitChar(n)] else NatText(n / 10) + [DigitChar(n % 10)]
  }

  /** The value of a string of decimal digits: the reading a consumer of the numeral makes. */
  function DigitsValue(s: string): nat
    requires forall i :: 0 <= i < |s| ==> IsDigit(s[i])
  {
    if s == [] then 0
    else
      assert IsDigit(s[|s| - 1]);
      DigitsValue(s[..|s| - 1]) * 10 + ((s[|s| - 1] as int) - ('0' as int))
  }

  /** The numeral reads back as the number it was made from. */
  lemma {:induction false} NatTextRoundTrip(n: nat)
    ensures DigitsValue(NatText(n)) == n
    decreases n
  {
    if n >= 10 {
      var r := NatText(n);
      assert r[..|r| - 1] == NatText(n / 10);
      NatTextRoundTrip(n / 10);
    }
  }

  /** JavaScript's String(n) for an integer n with |n| at most 2^53. */
  function IntText(n: int): (r: string)
    ensures n < 0 <==> (|r| > 0 && r[0] == '-')
  {
    if n < 0 then "-" + NatText(-n) else NatText(n)
  }

  /** Drops trailing '0' characters. */
  function TrimZeros(s: string): (r: string)
    ensures |r| <= |s| && r == s[..|r|]
    ensures r == [] || r[|r| - 1] != '0'
    ensures forall i :: |r| <= i < |s| ==> s[i] == '0'
  {
    if s == [] || s[|s| - 1] != '0' then s else TrimZeros(s[..|s| - 1])
  }

  /** The fractional digits of f thousandths, as JavaScript prints them. */
  function FractionText(f: nat): string
    requires f < 1000
  {
    if f == 0 then ""
    else "." + TrimZeros([DigitChar(f / 100), DigitChar(f / 10 % 10), DigitChar(f % 10)])
  }

  /** JavaScript's String(ms / 1000): the seconds of a time given in
      milliseconds, with at most three fractional digits. */
  function SecondsText(ms: int): string {
    var m := if ms < 0 then -ms else ms;
    (if ms < 0 then "-" else "") + NatText(m / 1000) + FractionText(m % 1000)
  }

  /** A time on a whole second prints as that integer number of seconds. */
  lemma WholeSecondsText(k: int)
    ensures SecondsText(k * 1000) == IntText(k)
  {
    var m := if k < 0 then -k * 1000 else k * 1000;
    assert m / 1000 == (if k < 0 then -k else k) && m % 1000 == 0;
  }

  /** JavaScript's `toLowerCase` on ASCII letters. No other character lowers
      to one of the ASCII letters that the extension test compares with. */
  function LowerChar(c: char): char {
    if 'A' <= c <= 'Z' then (c as int + 32) as char else c
  }

  function Lower(s: string): (r: string)
    ensures |r| == |s| && forall i :: 0 <= i < |s| ==> r[i] == LowerChar(s[i])
  {
    if s == [] then [] else [LowerChar(s[0])] + Lower(s[1..])
  }

  /** The part of s between a given prefix and suffix, if s has both. */
  function Between(s: string, prefix: string, suffix: string): (r: Option<string>)
    ensures r.Some? ==> s == prefix + r.value + suffix
  {
    if |prefix| + |suffix| <= |s| && s[..|prefix|] == prefix && s[|s| - |suffix|..] == suffix
    then
      var v := s[|prefix|..|s| - |suffix|];
      assert s == prefix + v + suffix;
      Some(v)
    else None
  }

  /** Wrapping a value in a prefix and a suffix can be undone. */
  lemma BetweenWrap(prefix: string, v: string, suffix: string)
    ensures Between(prefix + v + suffix, prefix, suffix) == Some(v)
  {
    var s := prefix + v + suffix;
    assert s[..|prefix|] == prefix;
    assert s[|s| - |suffix|..] == suffix;
    assert s[|prefix|..|s| - |suffix|] == v;
  }
}
