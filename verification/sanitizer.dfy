/**
 The query sanitiser applied to the text returned by the SQL generator
 (app.py, line 91): Python's `str.strip()`, then deletion of every backtick,
 then replacement of the right and the left single quotation marks by an
 ASCII apostrophe.
 */
module Sanitizer {

  const Backtick: char := '`'
  const LeftQuote: char := '\U{2018}'
  const RightQuote: char := '\U{2019}'
  const Apostrophe: char := '\''

  /** Python 3's `str.isspace()` on one character, which is the set of
      characters `str.strip()` removes when called without arguments. */
  predicate IsSpace(c: char) {
    || ('\t' <= c <= '\r')
    || ('\U{1C}' <= c <= '\U{1F}')
    || c == ' '
    || c == '\U{85}'
    || c == '\U{A0}'
    || c == '\U{1680}'
    || ('\U{2000}' <= c <= '\U{200A}')
    || c == '\U{2028}'
    || c == '\U{2029}'
    || c == '\U{202F}'
    || c == '\U{205F}'
    || c == '\U{3000}'
  }

  /** The 29 code points of Python 3's `str.isspace()`, one by one. */
  const SpaceChars: seq<char> := [
    '\t', '\n', '\U{B}', '\U{C}', '\r', '\U{1C}', '\U{1D}', '\U{1E}', '\U{1F}', ' ',
    '\U{85}', '\U{A0}', '\U{1680}',
    '\U{2000}', '\U{2001}', '\U{2002}', '\U{2003}', '\U{2004}', '\U{2005}',
    '\U{2006}', '\U{2007}', '\U{2008}', '\U{2009}', '\U{200A}',
    '\U{2028}', '\U{2029}', '\U{202F}', '\U{205F}', '\U{3000}'
  ]

  /** `IsSpace` holds of exactly the 29 listed code points. */
  lemma SpaceCharsExact(c: char)
    ensures |SpaceChars| == 29
    ensures IsSpace(c) <==> c in SpaceChars
  {
  }

  predicate AllSpace(s: string) {
    forall i :: 0 <= i < |s| ==> IsSpace(s[i])
  }

  /** A string that `strip()` leaves alone: empty, or non-space at both ends. */
  predicate Trimmed(s: string) {
    s == [] || (!IsSpace(s[0]) && !IsSpace(s[|s| - 1]))
  }

  /** The characters the sanitiser deletes or rewrites. */
  predicate IsMark(c: char) {
    c == Backtick || c == LeftQuote || c == RightQuote
  }

  predicate NoMarks(s: string) {
    forall i :: 0 <= i < |s| ==> !IsMark(s[i])
  }

  /** How often `c` occurs in `s`. */
  function Occurrences(s: string, c: char): nat {
    if s == [] then 0 else (if s[0] == c then 1 else 0) + Occurrences(s[1..], c)
  }

  /** Number of leading whitespace characters of `s`. */
  function LeadingSpace(s: string): (n: nat)
    ensures n <= |s|
    ensures AllSpace(s[..n])
    ensures n < |s| ==> !IsSpace(s[n])
  {
    if |s| > 0 && IsSpace(s[0]) then 1 + LeadingSpace(s[1..]) else 0
  }

  /** End of `s` once the trailing whitespace is cut, never going below `lo`. */
  function TrailingEnd(s: string, lo: nat): (hi: nat)
    requires lo <= |s|
    ensures lo <= hi <= |s|
    ensures AllSpace(s[hi..])
    ensures hi > lo ==> !IsSpace(s[hi - 1])
    decreases |s|
  {
    if |s| > lo && IsSpace(s[|s| - 1]) then
      var hi := TrailingEnd(s[..|s| - 1], lo);
      assert s[hi..] == s[..|s| - 1][hi..] + [s[|s| - 1]];
      hi
    else
      |s|
  }

  /** Python's `str.strip()` with no arguments: the infix of `s` left when
      whitespace is removed from both ends. */
  function Strip(s: string): (r: string)
    ensures exists lo, hi :: 0 <= lo <= hi <= |s| && r == s[lo..hi] && AllSpace(s[..lo]) && AllSpace(s[hi..])
    ensures Trimmed(r)
    ensures r == [] <==> AllSpace(s)
    ensures forall c :: c in r ==> c in s
  {
    var lo := LeadingSpace(s);
    var hi := TrailingEnd(s, lo);
    var r := s[lo..hi];
    assert r == [] ==> AllSpace(s) by {
      if r == [] {
        assert s == s[..lo] + s[hi..];
      }
    }
    r
  }

  /** Python's `s.replace(c, "")`: every occurrence of `c` deleted. */
  function RemoveChar(s: string, c: char): (r: string)
    ensures c !in r
    ensures |r| == |s| - Occurrences(s, c)
    ensures forall d :: d != c ==> Occurrences(r, d) == Occurrences(s, d)
  {
    if s == [] then []
    else
      var head, rest := if s[0] == c then [] else [s[0]], RemoveChar(s[1..], c);
      assert forall d :: Occurrences(head + rest, d) == Occurrences(head, d) + Occurrences(rest, d) by {
        forall d ensures Occurrences(head + rest, d) == Occurrences(head, d) + Occurrences(rest, d) {
          OccurrencesAppend(head, rest, d);
        }
      }
      head + rest
  }

  /** Deleting a character from a concatenation deletes it from each part,
      so the characters that are kept stay in their order. */
  lemma {:induction false} RemoveCharAppend(a: string, b: string, c: char)
    ensures RemoveChar(a + b, c) == RemoveChar(a, c) + RemoveChar(b, c)
  {
    if a == [] {
      assert a + b == b;
    } else {
      assert (a + b)[0] == a[0];
      assert (a + b)[1..] == a[1..] + b;
      RemoveCharAppend(a[1..], b, c);
    }
  }

  /** On one character, `replace(c, "")` drops it if it is `c` and keeps it
      otherwise. */
  lemma RemoveCharSingle(x: char, c: char)
    ensures RemoveChar([x], c) == if x == c then [] else [x]
  {
  }

  /** Python's `s.replace(src, dst)` for single characters `src` and `dst`. */
  function ReplaceChar(s: string, src: char, dst: char): (r: string)
    ensures |r| == |s|
    ensures forall i :: 0 <= i < |s| ==> r[i] == (if s[i] == src then dst else s[i])
  {
    if s == [] then []
    else
      assert s == [s[0]] + s[1..];
      [if s[0] == src then dst else s[0]] + ReplaceChar(s[1..], src, dst)
  }

  /** The three replacements of line 91, in the order the source applies them. */
  function Normalize(t: string): string {
    ReplaceChar(ReplaceChar(RemoveChar(t, Backtick), RightQuote, Apostrophe), LeftQuote, Apostrophe)
  }

  /** The sanitiser of line 91: strip first, then the three replacements.
      No backtick or smart quote is left, and exactly the backticks of the
      stripped text are gone. */
  function Sanitize(s: string): (r: string)
    ensures NoMarks(r)
    ensures |r| == |Strip(s)| - Occurrences(Strip(s), Backtick)
  {
    var t := Strip(s);
    NormalizeIsCleanAll(t);
    CleanAllNoMarksOut(t);
    CleanAllLength(t);
    Normalize(t)
  }

  // ---------------------------------------------------------------------------
  // Reference definition: one pass, character by character.

  /** What the sanitiser makes of one character of the stripped text. */
  function CleanChar(c: char): string {
    if c == Backtick then []
    else if c == LeftQuote || c == RightQuote then [Apostrophe]
    else [c]
  }

  /** Character-wise reference for the replacements of line 91. */
  function CleanAll(t: string): string {
    if t == [] then [] else CleanChar(t[0]) + CleanAll(t[1..])
  }

  lemma {:induction false} ReplaceCharAppend(a: string, b: string, src: char, dst: char)
    ensures ReplaceChar(a + b, src, dst) == ReplaceChar(a, src, dst) + ReplaceChar(b, src, dst)
  {
    var l := ReplaceChar(a + b, src, dst);
    var r := ReplaceChar(a, src, dst) + ReplaceChar(b, src, dst);
    assert |l| == |r|;
    forall i | 0 <= i < |l| ensures l[i] == r[i] {
      if i < |a| {
        assert (a + b)[i] == a[i];
      } else {
        assert (a + b)[i] == b[i - |a|];
      }
    }
  }

  /** Line 91 keeps every character that is not a mark, in order, turns each
      smart quote into exactly one apostrophe and drops each backtick. */
  lemma {:induction false} NormalizeIsCleanAll(t: string)
    ensures Normalize(t) == CleanAll(t)
  {
    if t != [] {
      var c, rest := t[0], t[1..];
      NormalizeIsCleanAll(rest);
      var head := if c == Backtick then [] else [c];
      assert RemoveChar(t, Backtick) == head + RemoveChar(rest, Backtick);
      ReplaceCharAppend(head, RemoveChar(rest, Backtick), RightQuote, Apostrophe);
      var head2 := ReplaceChar(head, RightQuote, Apostrophe);
      ReplaceCharAppend(head2, ReplaceChar(RemoveChar(rest, Backtick), RightQuote, Apostrophe), LeftQuote, Apostrophe);
      assert ReplaceChar(head2, LeftQuote, Apostrophe) == CleanChar(c);
    }
  }

  lemma SanitizeIsCleanAll(s: string)
    ensures Sanitize(s) == CleanAll(Strip(s))
  {
    NormalizeIsCleanAll(Strip(s));
  }

  lemma {:induction false} CleanAllAppend(a: string, b: string)
    ensures CleanAll(a + b) == CleanAll(a) + CleanAll(b)
  {
    if a == [] {
      assert a + b == b;
    } else {
      assert (a + b)[0] == a[0];
      assert (a + b)[1..] == a[1..] + b;
      CleanAllAppend(a[1..], b);
    }
  }

  lemma {:induction false} CleanAllNoMarksOut(t: string)
    ensures NoMarks(CleanAll(t))
  {
    if t != [] {
      CleanAllNoMarksOut(t[1..]);
      var h, r := CleanChar(t[0]), CleanAll(t);
      forall i | 0 <= i < |r| ensures !IsMark(r[i]) {
        if i >= |h| {
          assert r[i] == CleanAll(t[1..])[i - |h|];
        }
      }
    }
  }

  lemma {:induction false} CleanAllLength(t: string)
    ensures |CleanAll(t)| == |t| - Occurrences(t, Backtick)
  {
    if t != [] {
      CleanAllLength(t[1..]);
    }
  }

  /** What line 91 does to the number of occurrences of one character. */
  function CountAfter(t: string, c: char): nat {
    if IsMark(c) then 0
    else if c == Apostrophe then
      Occurrences(t, Apostrophe) + Occurrences(t, LeftQuote) + Occurrences(t, RightQuote)
    else Occurrences(t, c)
  }

  lemma {:induction false} OccurrencesAppend(a: string, b: string, c: char)
    ensures Occurrences(a + b, c) == Occurrences(a, c) + Occurrences(b, c)
  {
    if a == [] {
      assert a + b == b;
    } else {
      assert (a + b)[0] == a[0];
      assert (a + b)[1..] == a[1..] + b;
      OccurrencesAppend(a[1..], b, c);
    }
  }

  lemma {:induction false} CleanAllCounts(t: string, c: char)
    ensures Occurrences(CleanAll(t), c) == CountAfter(t, c)
  {
    if t != [] {
      CleanAllCounts(t[1..], c);
      OccurrencesAppend(CleanChar(t[0]), CleanAll(t[1..]), c);
    }
  }

  /** Every backtick and smart quote of the stripped text is gone, each smart
      quote has become one apostrophe, and every other character occurs as
      often as before. */
  lemma SanitizeCounts(s: string, c: char)
    ensures Occurrences(Sanitize(s), c) == CountAfter(Strip(s), c)
  {
    SanitizeIsCleanAll(s);
    CleanAllCounts(Strip(s), c);
  }

  /** A text without marks passes the three replacements unchanged. */
  lemma {:induction false} CleanAllNoMarks(t: string)
    requires NoMarks(t)
    ensures CleanAll(t) == t
  {
    if t != [] {
      assert !IsMark(t[0]);
      CleanAllNoMarks(t[1..]);
    }
  }

  // ---------------------------------------------------------------------------
  // Stripping.

  lemma {:induction false} LeadingSpaceAppend(a: string, t: string)
    requires AllSpace(a)
    ensures LeadingSpace(a + t) == |a| + LeadingSpace(t)
  {
    if a == [] {
      assert a + t == t;
    } else {
      assert (a + t)[0] == a[0];
      assert (a + t)[1..] == a[1..] + t;
      LeadingSpaceAppend(a[1..], t);
    }
  }

  lemma {:induction false} TrailingEndAppend(s: string, b: string, lo: nat)
    requires lo <= |s| && AllSpace(b)
    ensures TrailingEnd(s + b, lo) == TrailingEnd(s, lo)
    decreases |b|
  {
    if b == [] {
      assert s + b == s;
    } else {
      var sb := s + b;
      assert sb[|sb| - 1] == b[|b| - 1];
      assert sb[..|sb| - 1] == s + b[..|b| - 1];
      TrailingEndAppend(s, b[..|b| - 1], lo);
    }
  }

  /** `strip()` is characterised by its result: whatever whitespace surrounds
      a trimmed middle part, `strip()` returns exactly that middle part. */
  lemma StripUnique(a: string, m: string, b: string)
    requires AllSpace(a) && AllSpace(b) && Trimmed(m)
    ensures Strip(a + m + b) == m
  {
    var s := a + m + b;
    assert s == a + (m + b);
    LeadingSpaceAppend(a, m + b);
    TrailingEndAppend(a + m, b, |a|);
    if m == [] {
      assert m + b == b + [];
      LeadingSpaceAppend(b, []);
    } else {
      assert (m + b)[0] == m[0];
      assert (a + m)[|a + m| - 1] == m[|m| - 1];
      assert s[|a|..|a| + |m|] == m;
    }
  }

  lemma StripNoMarks(s: string)
    requires NoMarks(s)
    ensures NoMarks(Strip(s))
  {
    var lo := LeadingSpace(s);
    var t := s[lo..TrailingEnd(s, lo)];
    assert Strip(s) == t;
    forall i | 0 <= i < |t| ensures !IsMark(t[i]) {
      assert t[i] == s[lo + i];
    }
  }

  lemma StripIdempotent(s: string)
    ensures Strip(Strip(s)) == Strip(s)
  {
    var t := Strip(s);
    assert [] + t + [] == t;
    StripUnique([], t, []);
  }

  // ---------------------------------------------------------------------------
  // Idempotence, and where it fails.

  /** Sanitising twice only strips once more: the second pass finds no marks,
      so it is idempotent exactly on inputs whose sanitised text is trimmed. */
  lemma SanitizeTwice(s: string)
    ensures Sanitize(Sanitize(s)) == Strip(Sanitize(s))
    ensures Sanitize(Sanitize(s)) == Sanitize(s) <==> Trimmed(Sanitize(s))
  {
    var r := Sanitize(s);
    StripNoMarks(r);
    SanitizeIsCleanAll(r);
    CleanAllNoMarks(Strip(r));
    if Trimmed(r) {
      assert [] + r + [] == r;
      StripUnique([], r, []);
    }
  }

  /** Whitespace around a trimmed text without marks is all the sanitiser
      removes from it. */
  lemma SanitizeTrimsPadding(a: string, m: string, b: string)
    requires AllSpace(a) && AllSpace(b) && Trimmed(m) && NoMarks(m)
    ensures Sanitize(a + m + b) == m
  {
    StripUnique(a, m, b);
    SanitizeIsCleanAll(a + m + b);
    CleanAllNoMarks(m);
  }

  /** A trimmed text without marks is a fixed point of the sanitiser. */
  lemma SanitizeFixedPoint(s: string)
    requires Trimmed(s) && NoMarks(s)
    ensures Sanitize(s) == s
  {
    assert [] + s + [] == s;
    SanitizeTrimsPadding([], s, []);
  }

  /** A text without marks wrapped in one backtick on each side comes out
      exactly as it was inside the fence, surrounding whitespace included. */
  lemma SanitizeFence(m: string)
    requires NoMarks(m)
    ensures Sanitize([Backtick] + m + [Backtick]) == m
  {
    var s := [Backtick] + m + [Backtick];
    assert [] + s + [] == s;
    StripUnique([], s, []);
    SanitizeIsCleanAll(s);
    CleanAllAppend([Backtick] + m, [Backtick]);
    CleanAllAppend([Backtick], m);
    CleanAllNoMarks(m);
  }

  lemma SanitizeKeepsFencedSpace()
    ensures Sanitize("` x `") == " x "
  {
    var m := " x ";
    assert NoMarks(m);
    assert "` x `" == [Backtick] + m + [Backtick];
    SanitizeFence(m);
  }

  lemma SanitizeStripsSpace()
    ensures Sanitize(" x ") == "x"
  {
    assert " x " == [' '] + "x" + [' '];
    SanitizeTrimsPadding([' '], "x", [' ']);
  }

  /** Whitespace inside a code fence survives: stripping happens before the
      backticks are deleted, so the sanitiser is not idempotent. */
  lemma SanitizeNotIdempotent()
    ensures exists s :: Sanitize(Sanitize(s)) != Sanitize(s)
  {
    SanitizeKeepsFencedSpace();
    SanitizeStripsSpace();
    assert Sanitize(Sanitize("` x `")) != Sanitize("` x `");
  }

  /** A query wrapped in single backticks loses exactly the fence. */
  lemma SanitizeFencedQuery()
    ensures Sanitize("`SELECT * FROM t_shirts;`") == "SELECT * FROM t_shirts;"
  {
    var q := "SELECT * FROM t_shirts;";
    assert "`SELECT * FROM t_shirts;`" == [Backtick] + q + [Backtick];
    SanitizeFence(q);
  }
}
