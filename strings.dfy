/** The Python string and sequence builtins the two handlers rely on. */
module Strings {
  import Seqs


  /** `str.lower()` on one character; only ASCII letters are mapped (see README, "Left out"). */
  function LowerChar(c: char): char
  {
    if 'A' <= c <= 'Z' then (c as int + 32) as char else c
  }

  /** `str.lower()`: length preserving, character by character. */
  function Lower(s: string): (r: string)
    ensures |r| == |s|
    ensures forall i :: 0 <= i < |s| ==> r[i] == LowerChar(s[i])
  {
    seq(|s|, i requires 0 <= i < |s| => LowerChar(s[i]))
  }

  lemma LowerSlice(s: string, lo: int, hi: int)
    requires 0 <= lo <= hi <= |s|
    ensures Lower(s[lo..hi]) == Lower(s)[lo..hi]
  {
  }

  /**
   * The characters for which `str.isspace()` holds, the ones `str.strip()` removes: the
   * controls 9 to 13 and 28 to 31, the space, U+0085, U+00A0, U+1680, U+2000 to U+200A,
   * U+2028, U+2029, U+202F, U+205F and U+3000.
   */
  predicate IsSpace(c: char)
  {
    ('\t' <= c <= '\r') || ('\U{1c}' <= c <= ' ') || c == '\U{85}' || c == '\U{a0}' || c == '\U{1680}'
    || ('\U{2000}' <= c <= '\U{200a}') || c == '\U{2028}' || c == '\U{2029}' || c == '\U{202f}'
    || c == '\U{205f}' || c == '\U{3000}'
  }

  lemma LetterNotSpace(c: char)
    requires 'a' <= c <= 'z'
    ensures !IsSpace(c)
  {
  }

  lemma LowerKeepsSpace(c: char)
    ensures IsSpace(LowerChar(c)) <==> IsSpace(c)
  {
  }

  /** The number of whitespace characters `str.lstrip()` removes. */
  function LeadingSpaces(s: string): (n: nat)
    ensures n <= |s|
    ensures forall k :: 0 <= k < n ==> IsSpace(s[k])
    ensures n < |s| ==> !IsSpace(s[n])
  {
    if |s| == 0 || !IsSpace(s[0]) then 0 else 1 + LeadingSpaces(s[1..])
  }

  /** The number of whitespace characters `str.rstrip()` removes. */
  function TrailingSpaces(s: string): (n: nat)
    ensures n <= |s|
    ensures forall k :: |s| - n <= k < |s| ==> IsSpace(s[k])
    ensures n < |s| ==> !IsSpace(s[|s| - 1 - n])
  {
    if |s| == 0 || !IsSpace(s[|s| - 1]) then 0 else 1 + TrailingSpaces(s[..|s| - 1])
  }

  /** `str.strip()` with no argument. */
  function Strip(s: string): (r: string)
    ensures |r| <= |s|
  {
    var a := LeadingSpaces(s);
    var b := |s| - TrailingSpaces(s);
    if a >= b then "" else s[a..b]
  }

  /** `str.strip()` leaves nothing exactly when the string is all whitespace. */
  lemma StripEmpty(s: string)
    ensures Strip(s) == "" <==> forall k :: 0 <= k < |s| ==> IsSpace(s[k])
  {
    var a, n := LeadingSpaces(s), TrailingSpaces(s);
    if a < |s| - n {
      assert Strip(s) == s[a..|s| - n];
      assert !IsSpace(s[a]);
    } else {
      forall k | 0 <= k < |s|
        ensures IsSpace(s[k])
      {
        assert k < a || |s| - n <= k;
      }
    }
  }

  /**
   * What `str.strip()` leaves of a string that is not all whitespace: the stretch of `s` from
   * its first to its last non-space character, everything around it being whitespace.
   */
  lemma StripStretch(s: string)
    requires Strip(s) != ""
    ensures var r, a := Strip(s), LeadingSpaces(s);
      && !IsSpace(r[0]) && !IsSpace(r[|r| - 1])
      && a + |r| <= |s| && s[a..a + |r|] == r
      && forall k :: 0 <= k < |s| && !(a <= k < a + |r|) ==> IsSpace(s[k])
  {
    var a, n := LeadingSpaces(s), TrailingSpaces(s);
    var r := Strip(s);
    assert r == s[a..|s| - n];
    assert r[0] == s[a] && r[|r| - 1] == s[|s| - 1 - n];
    forall k | 0 <= k < |s| && !(a <= k < a + |r|)
      ensures IsSpace(s[k])
    {
      assert k < a || |s| - n <= k;
    }
  }

  /** Stripping never cuts into a stretch that starts and ends with a non-space character. */
  lemma StripKeeps(s: string, lo: int, hi: int)
    requires 0 <= lo < hi <= |s|
    requires !IsSpace(s[lo]) && !IsSpace(s[hi - 1])
    ensures LeadingSpaces(s) <= lo && hi <= |s| - TrailingSpaces(s)
    ensures Strip(s) == s[LeadingSpaces(s)..|s| - TrailingSpaces(s)]
  {
    LeadingBound(s, lo);
    TrailingBound(s, hi);
  }

  /** The leading whitespace ends at or before any non-space character. */
  lemma LeadingBound(s: string, lo: int)
    requires 0 <= lo < |s| && !IsSpace(s[lo])
    ensures LeadingSpaces(s) <= lo
  {
  }

  /** The trailing whitespace starts after any non-space character. */
  lemma TrailingBound(s: string, hi: int)
    requires 0 < hi <= |s| && !IsSpace(s[hi - 1])
    ensures hi <= |s| - TrailingSpaces(s)
  {
  }

  /** `p` occurs in `s` at index `i`. */
  predicate OccursAt(s: string, p: string, i: int)
  {
    0 <= i && i + |p| <= |s| && s[i..i + |p|] == p
  }

  /** `s.find(p, i)`: the least index from `i` on at which `p` occurs, or -1. */
  function FindFrom(s: string, p: string, i: nat): (r: int)
    requires i <= |s|
    ensures r == -1 || (i <= r && OccursAt(s, p, r))
    ensures forall j :: i <= j && (r == -1 || j < r) ==> !OccursAt(s, p, j)
    decreases |s| - i
  {
    if i + |p| > |s| then -1
    else if s[i..i + |p|] == p then i
    else FindFrom(s, p, i + 1)
  }

  /** `s.find(p)`. */
  function Find(s: string, p: string): (r: int)
    ensures r == -1 || OccursAt(s, p, r)
    ensures forall j :: 0 <= j && (r == -1 || j < r) ==> !OccursAt(s, p, j)
  {
    FindFrom(s, p, 0)
  }

  /** `p in s`. */
  predicate Contains(s: string, p: string)
    ensures Contains(s, p) <==> exists i :: OccursAt(s, p, i)
  {
    Find(s, p) >= 0
  }

  /** `sep.join(parts)`. */
  function Join(parts: seq<string>, sep: string): string
  {
    if |parts| == 0 then ""
    else if |parts| == 1 then parts[0]
    else parts[0] + sep + Join(parts[1..], sep)
  }

  /** The sum of the lengths of `parts`. */
  function TotalLength(parts: seq<string>): nat
  {
    if |parts| == 0 then 0 else |parts[0]| + TotalLength(parts[1..])
  }

  /** `len(sep.join(parts))`: the parts plus one separator between each two of them. */
  lemma {:induction false} JoinLength(parts: seq<string>, sep: string)
    ensures |Join(parts, sep)| == if |parts| == 0 then 0 else TotalLength(parts) + (|parts| - 1) * |sep|
  {
    if |parts| > 1 {
      JoinLength(parts[1..], sep);
    } else if |parts| == 1 {
      assert TotalLength(parts[1..]) == 0;
    }
  }

  /** `s.split(c)` for a one-character separator. */
  function SplitOn(s: string, c: char): (r: seq<string>)
    ensures |r| > 0
    decreases |s|
  {
    var i := Seqs.IndexOf(s, c);
    if i < 0 then [s] else [s[..i]] + SplitOn(s[i + 1..], c)
  }

  /** Splitting a join undoes it, as long as no part contains the separator. */
  lemma {:induction false} SplitJoin(parts: seq<string>, c: char)
    requires |parts| > 0 && forall k :: 0 <= k < |parts| ==> c !in parts[k]
    ensures SplitOn(Join(parts, [c]), c) == parts
  {
    if |parts| > 1 {
      var p, rest := parts[0], Join(parts[1..], [c]);
      var j := Join(parts, [c]);
      assert j == p + [c] + rest;
      Seqs.IndexOfPast(p, c, rest);
      assert j[..|p|] == p;
      assert j[|p| + 1..] == rest;
      assert SplitOn(j, c) == [p] + SplitOn(rest, c);
      SplitJoin(parts[1..], c);
      assert parts == [p] + parts[1..];
    } else {
      assert c !in parts[0];
    }
  }

  function DigitChar(d: nat): char
    requires d < 10
  {
    "0123456789"[d]
  }

  function NatToString(n: nat): string
    decreases n
  {
    if n < 10 then [DigitChar(n)] else NatToString(n / 10) + [DigitChar(n % 10)]
  }

  /** `str(i)` for an integer. */
  function IntToString(i: int): string
  {
    if i < 0 then "-" + NatToString(-i) else NatToString(i)
  }

  /** An occurrence in the lower-cased string survives cutting out any slice around it. */
  lemma LowerSliceKeeps(s: string, p: string, i: int, lo: int, hi: int)
    requires OccursAt(Lower(s), p, i) && 0 <= lo <= i && i + |p| <= hi <= |s|
    ensures OccursAt(Lower(s[lo..hi]), p, i - lo)
  {
    LowerSlice(s, lo, hi);
    assert Lower(s)[lo..hi][i - lo..i - lo + |p|] == Lower(s)[i..i + |p|];
  }

  /**
   * An occurrence, in the lower-cased string, of a pattern that starts and ends with a
   * non-space character survives stripping.
   */
  lemma StripKeepsOccurrence(s: string, p: string, i: int)
    requires |p| > 0 && !IsSpace(p[0]) && !IsSpace(p[|p| - 1])
    requires OccursAt(Lower(s), p, i)
    ensures OccursAt(Lower(Strip(s)), p, i - LeadingSpaces(s))
  {
    assert Lower(s)[i..i + |p|] == p;
    assert Lower(s)[i] == p[0] && Lower(s)[i + |p| - 1] == p[|p| - 1];
    LowerKeepsSpace(s[i]);
    LowerKeepsSpace(s[i + |p| - 1]);
    var a, b := LeadingSpaces(s), |s| - TrailingSpaces(s);
    StripKeeps(s, i, i + |p|);
    assert Strip(s) == s[a..b];
    LowerSliceKeeps(s, p, i, a, b);
    assert OccursAt(Lower(s[a..b]), p, i - a);
  }
}
