/**
 The string operations the client's search and category filter use:
 `toLowerCase` (on the ASCII letters), `includes`, and `Number.prototype.toString`
 for integers, with a decimal reader as its inverse.
 */
module Text {

  /** `toLowerCase` on one character: 'A'..'Z' become 'a'..'z', everything else is kept. */
  function LowerChar(c: char): char
  {
    if 'A' <= c <= 'Z' then (c as int + 32) as char else c
  }

  /** `toUpperCase` on one character: 'a'..'z' become 'A'..'Z', everything else is kept. */
  function UpperChar(c: char): char
  {
    if 'a' <= c <= 'z' then (c as int - 32) as char else c
  }

  /** `s.toLowerCase()`, character by character. */
  function Lower(s: string): (r: string)
    ensures |r| == |s|
    ensures forall i :: 0 <= i < |s| ==> r[i] == LowerChar(s[i])
  {
    if |s| == 0 then [] else [LowerChar(s[0])] + Lower(s[1..])
  }

  /** `s.toUpperCase()`, character by character. */
  function Upper(s: string): (r: string)
    ensures |r| == |s|
    ensures forall i :: 0 <= i < |s| ==> r[i] == UpperChar(s[i])
  {
    if |s| == 0 then [] else [UpperChar(s[0])] + Upper(s[1..])
  }

  /** Upper-casing first does not change what lower-casing gives: the search ignores case. */
  lemma LowerUpper(s: string)
    ensures Lower(Upper(s)) == Lower(s)
  {
    assert forall i :: 0 <= i < |s| ==> LowerChar(UpperChar(s[i])) == LowerChar(s[i]);
  }

  /** `needle` occurs at the start of `hay`. */
  predicate StartsWith(hay: string, needle: string)
  {
    |needle| <= |hay| && hay[..|needle|] == needle
  }

  /** `hay.includes(needle)`: try every start position in turn. */
  function Contains(hay: string, needle: string): bool
  {
    StartsWith(hay, needle) || (|hay| > 0 && Contains(hay[1..], needle))
  }

  /** `needle` occurs in `hay` starting at position `i`. */
  predicate OccursAt(needle: string, hay: string, i: int)
  {
    0 <= i && i + |needle| <= |hay| && hay[i..i + |needle|] == needle
  }

  /** `needle` occurs at some position of `hay`: the reference reading of `includes`. */
  ghost predicate OccursIn(needle: string, hay: string)
  {
    exists i :: OccursAt(needle, hay, i)
  }

  /** `Contains` finds exactly the occurrences there are. */
  lemma {:induction false} ContainsIff(hay: string, needle: string)
    ensures Contains(hay, needle) <==> OccursIn(needle, hay)
  {
    if StartsWith(hay, needle) {
      assert OccursAt(needle, hay, 0);
    } else if |hay| == 0 {
      assert !OccursAt(needle, hay, 0);
      assert forall i :: OccursAt(needle, hay, i) ==> i == 0;
    } else {
      ContainsIff(hay[1..], needle);
      var tail := hay[1..];
      if OccursIn(needle, tail) {
        var i :| OccursAt(needle, tail, i);
        assert tail[i..i + |needle|] == needle;
        assert forall j :: 0 <= j < |tail| ==> tail[j] == hay[j + 1];
        assert hay[i + 1..i + 1 + |needle|] == tail[i..i + |needle|];
        assert OccursAt(needle, hay, i + 1);
      }
      assert !OccursAt(needle, hay, 0);
      forall i | OccursAt(needle, hay, i)
        ensures OccursAt(needle, tail, i - 1)
      {
        assert tail[i - 1..i - 1 + |needle|] == hay[i..i + |needle|];
      }
    }
  }

  /** The empty search term is found in every string. */
  lemma ContainsEmpty(hay: string)
    ensures Contains(hay, "")
  {
    assert StartsWith(hay, "");
  }

  /** The character for the decimal digit `d`. */
  function DigitChar(d: int): char
    requires 0 <= d <= 9
  {
    ('0' as int + d) as char
  }

  predicate IsDigit(c: char)
  {
    '0' <= c <= '9'
  }

  /** The decimal digits of `n`, most significant first, without leading zeros. */
  function NatToString(n: nat): (r: string)
    ensures |r| > 0
    ensures forall i :: 0 <= i < |r| ==> IsDigit(r[i])
  {
    if n < 10 then [DigitChar(n)] else NatToString(n / 10) + [DigitChar(n % 10)]
  }

  /** `n.toString()` for an integer: a minus sign before the digits of a negative number. */
  function IntToString(n: int): (r: string)
    ensures |r| > 0
    ensures r[0] == '-' <==> n < 0
    ensures forall i :: 0 <= i < |r| ==> IsDigit(r[i]) || (i == 0 && n < 0)
  {
    if n < 0 then "-" + NatToString(-n) else NatToString(n)
  }

  /** Reads a string of decimal digits as a number. */
  function DigitsValue(s: string): int
  {
    if |s| == 0 then 0
    else DigitsValue(s[..|s| - 1]) * 10 + (s[|s| - 1] as int - '0' as int)
  }

  /** Reads an optionally signed decimal numeral. */
  function ParseInt(s: string): int
  {
    if |s| > 0 && s[0] == '-' then -DigitsValue(s[1..]) else DigitsValue(s)
  }

  lemma {:induction false} NatToStringValue(n: nat)
    ensures DigitsValue(NatToString(n)) == n
  {
    if n >= 10 {
      NatToStringValue(n / 10);
      var r := NatToString(n);
      assert r[..|r| - 1] == NatToString(n / 10);
    }
  }

  /** Reading back what `IntToString` wrote gives the number. */
  lemma IntToStringRoundTrip(n: int)
    ensures ParseInt(IntToString(n)) == n
  {
    if n < 0 {
      NatToStringValue(-n);
      assert IntToString(n)[1..] == NatToString(-n);
    } else {
      NatToStringValue(n);
    }
  }

  /** Different integers print differently. */
  lemma IntToStringInjective(a: int, b: int)
    ensures IntToString(a) == IntToString(b) <==> a == b
  {
    IntToStringRoundTrip(a);
    IntToStringRoundTrip(b);
  }
}
