/** The string operations of Python that the dashboard relies on:
    `str.strip`, `str.replace`, `str.upper`, `str.capitalize`, and decimal digits. */
module Strings {

  /** Python's `str.isspace` for one character (the Unicode White_Space
      characters plus the four information separators U+001C..U+001F). */
  predicate IsSpace(c: char) {
    c == ' ' || ('\t' <= c <= '\r') || ('\U{1C}' <= c <= '\U{1F}')
    || c == '\U{85}' || c == '\U{A0}' || c == '\U{1680}'
    || ('\U{2000}' <= c <= '\U{200A}') || c == '\U{2028}' || c == '\U{2029}'
    || c == '\U{202F}' || c == '\U{205F}' || c == '\U{3000}'
  }

  /** `s.lstrip()`. */
  function StripLeft(s: string): string {
    if |s| > 0 && IsSpace(s[0]) then StripLeft(s[1..]) else s
  }

  /** `s.rstrip()`. */
  function StripRight(s: string): string {
    if |s| > 0 && IsSpace(s[|s| - 1]) then StripRight(s[..|s| - 1]) else s
  }

  /** `lstrip` drops exactly the leading whitespace. */
  lemma {:induction false} StripLeftDropsLeadingSpace(s: string)
    ensures |StripLeft(s)| <= |s| && StripLeft(s) == s[|s| - |StripLeft(s)|..]
    ensures |StripLeft(s)| > 0 ==> !IsSpace(StripLeft(s)[0])
    ensures forall i :: 0 <= i < |s| - |StripLeft(s)| ==> IsSpace(s[i])
  {
    if |s| > 0 && IsSpace(s[0]) {
      StripLeftDropsLeadingSpace(s[1..]);
    }
  }

  /** `rstrip` drops exactly the trailing whitespace. */
  lemma {:induction false} StripRightDropsTrailingSpace(s: string)
    ensures |StripRight(s)| <= |s| && StripRight(s) == s[..|StripRight(s)|]
    ensures |StripRight(s)| > 0 ==> !IsSpace(StripRight(s)[|StripRight(s)| - 1])
    ensures forall i :: |StripRight(s)| <= i < |s| ==> IsSpace(s[i])
  {
    if |s| > 0 && IsSpace(s[|s| - 1]) {
      StripRightDropsTrailingSpace(s[..|s| - 1]);
    }
  }

  /** `s.strip()`. */
  function Strip(s: string): string {
    StripRight(StripLeft(s))
  }

  /** Stripping keeps a contiguous piece of the text: every character it
      leaves was in the text. */
  lemma StripChars(s: string)
    ensures forall k :: 0 <= k < |Strip(s)| ==> Strip(s)[k] in s
  {
    StripLeftDropsLeadingSpace(s);
    var l := StripLeft(s);
    StripRightDropsTrailingSpace(l);
    forall k | 0 <= k < |Strip(s)|
      ensures Strip(s)[k] in s
    {
      assert Strip(s)[k] == l[k] == s[|s| - |l| + k];
    }
  }

  /** `s.replace(pat, rep)`: left-to-right replacement of non-overlapping
      occurrences of a non-empty pattern. */
  function ReplaceAll(s: string, pat: string, rep: string): string
    requires |pat| > 0
    decreases |s|
  {
    if |s| < |pat| then s
    else if s[..|pat|] == pat then rep + ReplaceAll(s[|pat|..], pat, rep)
    else [s[0]] + ReplaceAll(s[1..], pat, rep)
  }

  /** A string in which the pattern's first character never occurs is left alone. */
  lemma ReplaceAbsent(s: string, pat: string, rep: string)
    requires |pat| > 0
    requires forall i :: 0 <= i < |s| ==> s[i] != pat[0]
    ensures ReplaceAll(s, pat, rep) == s
  {
    forall i
      ensures !OccursAt(s, pat, i)
    {
      if 0 <= i && i + |pat| <= |s| {
        assert s[i..i + |pat|][0] == s[i];
      }
    }
    ReplaceNoOccurrence(s, pat, rep);
  }

  /** `pat` occurs in `s` starting at index `i`. */
  predicate OccursAt(s: string, pat: string, i: int) {
    0 <= i && i + |pat| <= |s| && s[i..i + |pat|] == pat
  }

  /** Text in which the pattern never occurs is left unchanged. */
  lemma {:induction false} ReplaceNoOccurrence(s: string, pat: string, rep: string)
    requires |pat| > 0
    requires forall i :: !OccursAt(s, pat, i)
    ensures ReplaceAll(s, pat, rep) == s
    decreases |s|
  {
    if |s| >= |pat| {
      assert !OccursAt(s, pat, 0);
      assert s[..|pat|] != pat;
      var t := s[1..];
      forall i
        ensures !OccursAt(t, pat, i)
      {
        if OccursAt(t, pat, i) {
          assert t[i..i + |pat|] == s[i + 1..i + 1 + |pat|];
          assert OccursAt(s, pat, i + 1);
        }
      }
      ReplaceNoOccurrence(t, pat, rep);
      assert [s[0]] + t == s;
    }
  }

  /** A leading occurrence of the pattern is replaced and the scan goes on after it. */
  lemma ReplacePrefix(pat: string, x: string, rep: string)
    requires |pat| > 0
    ensures ReplaceAll(pat + x, pat, rep) == rep + ReplaceAll(x, pat, rep)
  {
    var s := pat + x;
    assert s[..|pat|] == pat && s[|pat|..] == x;
  }

  /** Replacing a single character distributes over concatenation. */
  lemma {:induction false} ReplaceCharConcat(x: string, y: string, a: char, rep: string)
    ensures ReplaceAll(x + y, [a], rep) == ReplaceAll(x, [a], rep) + ReplaceAll(y, [a], rep)
  {
    if |x| > 0 {
      assert (x + y)[1..] == x[1..] + y;
      assert (x + y)[..1] == x[..1];
      ReplaceCharConcat(x[1..], y, a, rep);
    } else {
      assert x + y == y;
    }
  }

  /** `str.upper` on ASCII letters and `ç`; every other character is kept. */
  function UpperChar(c: char): char {
    if 'a' <= c <= 'z' then (c as int - 32) as char
    else if c == 'ç' then 'Ç'
    else c
  }

  /** `str.lower` on ASCII letters and `Ç`; every other character is kept. */
  function LowerChar(c: char): char {
    if 'A' <= c <= 'Z' then (c as int + 32) as char
    else if c == 'Ç' then 'ç'
    else c
  }

  function Upper(s: string): string {
    seq(|s|, i requires 0 <= i < |s| => UpperChar(s[i]))
  }

  function Lower(s: string): string {
    seq(|s|, i requires 0 <= i < |s| => LowerChar(s[i]))
  }

  /** `s.capitalize()`: first character upper-cased, the rest lower-cased. */
  function Capitalize(s: string): string {
    if |s| == 0 then "" else [UpperChar(s[0])] + Lower(s[1..])
  }

  /** Lower-casing forgets whether a character had been upper-cased first. */
  lemma LowerOfUpper(c: char)
    ensures LowerChar(UpperChar(c)) == LowerChar(c)
  {
  }

  /** Capitalizing a string gives the same as capitalizing its upper-case form,
      which is why a month cell written in any case gets one label. */
  lemma CapitalizeOfUpper(s: string)
    ensures Capitalize(Upper(s)) == Capitalize(s)
  {
    if |s| > 0 {
      forall i | 0 <= i < |s| - 1
        ensures Lower(Upper(s)[1..])[i] == Lower(s[1..])[i]
      {
        LowerOfUpper(s[i + 1]);
      }
    }
  }

  /** The number of occurrences of `c` in `s`. */
  function Count(s: string, c: char): nat {
    if |s| == 0 then 0 else (if s[0] == c then 1 else 0) + Count(s[1..], c)
  }

  lemma {:induction false} CountConcat(x: string, y: string, c: char)
    ensures Count(x + y, c) == Count(x, c) + Count(y, c)
  {
    if |x| > 0 {
      assert (x + y)[1..] == x[1..] + y;
      CountConcat(x[1..], y, c);
    } else {
      assert x + y == y;
    }
  }

  lemma {:induction false} CountAbsent(s: string, c: char)
    requires forall i :: 0 <= i < |s| ==> s[i] != c
    ensures Count(s, c) == 0
  {
    if |s| > 0 {
      CountAbsent(s[1..], c);
    }
  }

  /** Replacing a pattern by a text, neither of which contains `c`, keeps
      the number of `c`s. */
  lemma {:induction false} CountReplace(s: string, pat: string, rep: string, c: char)
    requires |pat| > 0 && Count(pat, c) == 0 && Count(rep, c) == 0
    ensures Count(ReplaceAll(s, pat, rep), c) == Count(s, c)
    decreases |s|
  {
    if |s| >= |pat| {
      if s[..|pat|] == pat {
        var rest := s[|pat|..];
        CountReplace(rest, pat, rep, c);
        CountConcat(rep, ReplaceAll(rest, pat, rep), c);
        assert s == pat + rest;
        CountConcat(pat, rest, c);
      } else {
        CountReplace(s[1..], pat, rep, c);
        CountConcat([s[0]], ReplaceAll(s[1..], pat, rep), c);
      }
    }
  }

  /** Turning every `a` into `b` leaves as many `b`s as there were `a`s and
      `b`s together. */
  lemma {:induction false} CountReplaceChar(s: string, a: char, b: char)
    requires a != b
    ensures Count(ReplaceAll(s, [a], [b]), b) == Count(s, a) + Count(s, b)
    decreases |s|
  {
    if |s| > 0 {
      CountReplaceChar(s[1..], a, b);
      if s[..1] == [a] {
        CountConcat([b], ReplaceAll(s[1..], [a], [b]), b);
      } else {
        CountConcat([s[0]], ReplaceAll(s[1..], [a], [b]), b);
      }
    }
  }

  /** Stripping keeps every character that is not whitespace. */
  lemma CountStrip(s: string, c: char)
    requires !IsSpace(c)
    ensures Count(Strip(s), c) == Count(s, c)
  {
    StripLeftDropsLeadingSpace(s);
    var l := StripLeft(s);
    var k := |s| - |l|;
    assert s == s[..k] + l;
    CountConcat(s[..k], l, c);
    CountAbsent(s[..k], c);
    StripRightDropsTrailingSpace(l);
    var m := |Strip(s)|;
    assert l == Strip(s) + l[m..];
    CountConcat(Strip(s), l[m..], c);
    CountAbsent(l[m..], c);
  }

  predicate IsDigit(c: char) {
    '0' <= c <= '9'
  }

  predicate AllDigits(s: string) {
    forall i :: 0 <= i < |s| ==> IsDigit(s[i])
  }

  function DigitValue(c: char): nat
    requires IsDigit(c)
  {
    c as int - '0' as int
  }

  function DigitChar(d: nat): char
    requires d < 10
  {
    ('0' as int + d) as char
  }

  /** The value of a string of decimal digits, most significant first. */
  function DigitsValue(s: string): nat
    requires AllDigits(s)
  {
    if |s| == 0 then 0 else DigitsValue(s[..|s| - 1]) * 10 + DigitValue(s[|s| - 1])
  }

  function Pow10(k: nat): (p: nat)
    ensures p > 0
  {
    if k == 0 then 1 else 10 * Pow10(k - 1)
  }

  /** The decimal numeral of `n` (what Python's `str(n)` gives for an int
      `n >= 0`); reading it back gives `n`. */
  function Digits(n: nat): (r: string)
    ensures |r| > 0 && AllDigits(r) && DigitsValue(r) == n
    ensures n > 0 ==> r[0] != '0'
    ensures n == 0 ==> r == "0"
  {
    if n < 10 then [DigitChar(n)]
    else
      var d := Digits(n / 10);
      var r := d + [DigitChar(n % 10)];
      assert r[..|r| - 1] == d;
      r
  }
}
