/** The string operations the components use: `toLowerCase` / `toUpperCase` (on the ASCII
    letters), `includes` (substring search) and the decimal rendering of a whole number inside
    a template literal, with the parser that inverts it. */
module Text {

  import opened Maybe

  predicate IsAsciiUpper(c: char) { 'A' <= c <= 'Z' }
  predicate IsAsciiLower(c: char) { 'a' <= c <= 'z' }
  predicate IsDigit(c: char) { '0' <= c <= '9' }

  function LowerChar(c: char): (r: char)
    ensures !IsAsciiUpper(r)
    ensures IsAsciiUpper(c) || r == c
  {
    if IsAsciiUpper(c) then (c as int - 'A' as int + 'a' as int) as char else c
  }

  function UpperChar(c: char): (r: char)
    ensures !IsAsciiLower(r)
    ensures IsAsciiLower(c) || r == c
  {
    if IsAsciiLower(c) then (c as int - 'a' as int + 'A' as int) as char else c
  }

  /** `s.toLowerCase()`, folding the ASCII letters only. */
  function Lower(s: string): (r: string)
    ensures |r| == |s|
    ensures forall i :: 0 <= i < |s| ==> r[i] == LowerChar(s[i])
  {
    seq(|s|, i requires 0 <= i < |s| => LowerChar(s[i]))
  }

  /** `s.toUpperCase()`, folding the ASCII letters only. */
  function Upper(s: string): (r: string)
    ensures |r| == |s|
    ensures forall i :: 0 <= i < |s| ==> r[i] == UpperChar(s[i])
  {
    seq(|s|, i requires 0 <= i < |s| => UpperChar(s[i]))
  }

  /** `needle` occurs in `hay` at position `i`. */
  predicate OccursAt(needle: string, hay: string, i: int)
  {
    0 <= i && i + |needle| <= |hay| && hay[i..i + |needle|] == needle
  }

  /** `hay.includes(needle)`. */
  predicate Contains(hay: string, needle: string)
  {
    exists i :: 0 <= i <= |hay| - |needle| && OccursAt(needle, hay, i)
  }

  /** Containment is transitive: a piece of a piece of `hay` is a piece of `hay`. */
  lemma ContainsTransitive(hay: string, mid: string, needle: string)
    requires Contains(hay, mid) && Contains(mid, needle)
    ensures Contains(hay, needle)
  {
    var i :| 0 <= i <= |hay| - |mid| && OccursAt(mid, hay, i);
    var j :| 0 <= j <= |mid| - |needle| && OccursAt(needle, mid, j);
    forall k | 0 <= k < |needle|
      ensures hay[i + j + k] == needle[k]
    {
      assert mid[j + k] == needle[k];
      assert hay[i..i + |mid|][j + k] == mid[j + k];
    }
    assert OccursAt(needle, hay, i + j);
  }

  /** The first position of `c` in `s`, or `|s|` when there is none. */
  function IndexOf(s: string, c: char): (i: nat)
    ensures i <= |s|
    ensures i < |s| ==> s[i] == c
    ensures forall k :: 0 <= k < i ==> s[k] != c
  {
    if s == [] then 0
    else if s[0] == c then 0
    else 1 + IndexOf(s[1..], c)
  }

  /** Searching past a prefix that lacks `c`. */
  lemma {:induction false} IndexOfAfter(a: string, b: string, c: char)
    requires forall k :: 0 <= k < |a| ==> a[k] != c
    ensures IndexOf(a + b, c) == |a| + IndexOf(b, c)
  {
    if a == [] {
      assert a + b == b;
    } else {
      assert (a + b)[0] == a[0];
      assert (a + b)[1..] == a[1..] + b;
      IndexOfAfter(a[1..], b, c);
    }
  }

  function DigitChar(d: nat): (c: char)
    requires d < 10
    ensures IsDigit(c)
  {
    ('0' as int + d) as char
  }

  function DigitValue(c: char): (d: nat)
    requires IsDigit(c)
    ensures d < 10
  {
    c as int - '0' as int
  }

  predicate AllDigits(s: string)
  {
    forall i :: 0 <= i < |s| ==> IsDigit(s[i])
  }

  /** The decimal text of `n`, as a template literal renders a non-negative whole number:
      digits only, never empty, and no leading zero. */
  function NatToString(n: nat): (s: string)
    ensures |s| > 0 && AllDigits(s)
    ensures s[0] == '0' ==> n == 0
  {
    if n < 10 then [DigitChar(n)] else NatToString(n / 10) + [DigitChar(n % 10)]
  }

  /** The decimal text of an integer, with a leading minus sign when negative. */
  function IntToString(n: int): string
  {
    if n < 0 then "-" + NatToString(-n) else NatToString(n)
  }

  /** The value of a non-empty run of decimal digits. */
  function DigitsValue(s: string): nat
    requires |s| > 0 && AllDigits(s)
  {
    if |s| == 1 then DigitValue(s[0])
    else DigitsValue(s[..|s| - 1]) * 10 + DigitValue(s[|s| - 1])
  }

  /** Reads a whole number back from its decimal text; `None` unless `s` is a non-empty run of
      digits. */
  function ParseNat(s: string): (r: Option<nat>)
    ensures r.Some? <==> |s| > 0 && AllDigits(s)
  {
    if |s| > 0 && AllDigits(s) then Some(DigitsValue(s)) else None
  }

  /** Parsing inverts printing. */
  lemma {:induction false} ParseNatToString(n: nat)
    ensures ParseNat(NatToString(n)) == Some(n)
  {
    if n >= 10 {
      ParseNatToString(n / 10);
      var s := NatToString(n);
      assert s[..|s| - 1] == NatToString(n / 10);
    }
  }

  /** Different numbers print differently. */
  lemma NatToStringInjective(a: nat, b: nat)
    requires NatToString(a) == NatToString(b)
    ensures a == b
  {
    ParseNatToString(a);
    ParseNatToString(b);
  }
}
