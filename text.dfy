/**
 * The .NET string operations the crawler relies on, written out over `seq<char>`:
 * prefix tests, trimming, ordinal replace-all and ASCII lower-casing.
 */
module Text {

  /** `s.StartsWith(p)` as a plain prefix test (the culture-sensitive comparison of .NET is not modelled). */
  predicate StartsWith(s: string, p: string) {
    |p| <= |s| && s[..|p|] == p
  }

  /** The characters `string.Trim()` removes (the ASCII and Latin-1 white space of `char.IsWhiteSpace`). */
  predicate IsWhiteSpace(c: char) {
    c == ' ' || c == '\t' || c == '\n' || c == '\r' || c == '\U{000B}' || c == '\U{000C}'
    || c == '\U{0085}' || c == '\U{00A0}'
  }

  /** One differing character rules a prefix out. */
  lemma MismatchAt(s: string, p: string, k: nat)
    requires k < |p| && (k >= |s| || s[k] != p[k])
    ensures !StartsWith(s, p)
  {
  }

  /** A shared first character does not change whether one string prefixes the other. */
  lemma ConsPrefix(c: char, s: string, p: string)
    ensures StartsWith([c] + s, [c] + p) <==> StartsWith(s, p)
  {
    if |p| <= |s| {
      assert ([c] + s)[..|p| + 1] == [c] + s[..|p|];
      assert ([c] + s[..|p|])[1..] == s[..|p|];
      assert ([c] + p)[1..] == p;
    }
  }

  /** Drops the longest prefix whose characters all satisfy `p`. */
  function DropLeading(s: string, p: char -> bool): (r: string)
    ensures |r| <= |s| && r == s[|s| - |r|..]
    ensures r == [] || !p(r[0])
    ensures forall i :: 0 <= i < |s| - |r| ==> p(s[i])
    decreases |s|
  {
    if |s| > 0 && p(s[0]) then DropLeading(s[1..], p) else s
  }

  /** Drops the longest suffix whose characters all satisfy `p`. */
  function DropTrailing(s: string, p: char -> bool): (r: string)
    ensures |r| <= |s| && r == s[..|r|]
    ensures r == [] || !p(r[|r| - 1])
    ensures forall i :: |r| <= i < |s| ==> p(s[i])
    decreases |s|
  {
    if |s| > 0 && p(s[|s| - 1]) then DropTrailing(s[..|s| - 1], p) else s
  }

  /** `s.Trim()`. */
  function Trim(s: string): string {
    DropTrailing(DropLeading(s, IsWhiteSpace), IsWhiteSpace)
  }

  /** `s.TrimStart(c)`. */
  function TrimStart(s: string, c: char): string {
    DropLeading(s, x => x == c)
  }

  /** `s.TrimEnd(c)`. */
  function TrimEnd(s: string, c: char): string {
    DropTrailing(s, x => x == c)
  }

  /** `s.Trim(c)`: both ends. */
  function TrimBoth(s: string, c: char): string {
    TrimEnd(TrimStart(s, c), c)
  }

  /** `string.IsNullOrWhiteSpace(s)`; a null reference is modelled as the empty string. */
  predicate IsBlank(s: string) {
    forall i :: 0 <= i < |s| ==> IsWhiteSpace(s[i])
  }

  function LowerChar(c: char): char {
    if 'A' <= c <= 'Z' then (c as int + 32) as char else c
  }

  /** `s.ToLower()`, with ASCII case mapping. */
  function Lower(s: string): (r: string)
    ensures |r| == |s|
  {
    seq(|s|, i requires 0 <= i < |s| => LowerChar(s[i]))
  }

  /** `s.Replace(pat, rep)`: every non-overlapping occurrence, scanning left to right. */
  function ReplaceAll(s: string, pat: string, rep: string): string
    requires |pat| > 0
    decreases |s|
  {
    if StartsWith(s, pat) then rep + ReplaceAll(s[|pat|..], pat, rep)
    else if s == [] then []
    else [s[0]] + ReplaceAll(s[1..], pat, rep)
  }

  lemma LowerIdempotent(s: string)
    ensures Lower(Lower(s)) == Lower(s)
  {
  }

  lemma LowerUnchanged(s: string)
    requires forall i :: 0 <= i < |s| ==> !('A' <= s[i] <= 'Z')
    ensures Lower(s) == s
  {
  }

  lemma LowerAppend(a: string, b: string)
    ensures Lower(a + b) == Lower(a) + Lower(b)
  {
    assert forall i :: 0 <= i < |a + b| ==> Lower(a + b)[i] == (Lower(a) + Lower(b))[i];
  }

  /** Replacing never introduces a character that neither the subject nor the replacement holds. */
  lemma {:induction false} ReplaceAllKeepsAbsentChar(s: string, pat: string, rep: string, c: char)
    requires |pat| > 0 && c !in s && c !in rep
    ensures c !in ReplaceAll(s, pat, rep)
    decreases |s|
  {
    if StartsWith(s, pat) {
      assert forall i :: 0 <= i < |s[|pat|..]| ==> s[|pat|..][i] == s[|pat| + i];
      ReplaceAllKeepsAbsentChar(s[|pat|..], pat, rep, c);
    } else if s != [] {
      assert forall i :: 0 <= i < |s[1..]| ==> s[1..][i] == s[1 + i];
      ReplaceAllKeepsAbsentChar(s[1..], pat, rep, c);
    }
  }

  /** A subject that lacks one of the pattern's characters has no occurrence to replace. */
  lemma {:induction false} ReplaceAllNoOccurrence(s: string, pat: string, rep: string, k: nat)
    requires k < |pat| && pat[k] !in s
    ensures ReplaceAll(s, pat, rep) == s
    decreases |s|
  {
    if s != [] {
      assert !StartsWith(s, pat);
      assert forall i :: 0 <= i < |s[1..]| ==> s[1..][i] == s[1 + i];
      ReplaceAllNoOccurrence(s[1..], pat, rep, k);
    }
  }

  /** When no occurrence starts inside the prefix `p`, replacement leaves `p` alone. */
  lemma {:induction false} ReplaceAllSkipsPrefix(p: string, s: string, pat: string, rep: string)
    requires |pat| > 0
    requires forall i :: 0 <= i < |p| ==> !StartsWith(p[i..] + s, pat)
    ensures ReplaceAll(p + s, pat, rep) == p + ReplaceAll(s, pat, rep)
    decreases |p|
  {
    if p != [] {
      var t := p[1..] + s;
      assert p + s == [p[0]] + t;
      assert !StartsWith(p + s, pat) by { assert p[0..] == p; }
      assert (p + s)[1..] == t;
      assert ReplaceAll(p + s, pat, rep) == [p[0]] + ReplaceAll(t, pat, rep);
      forall i | 0 <= i < |p[1..]| ensures !StartsWith(p[1..][i..] + s, pat) {
        assert p[1..][i..] == p[i + 1..];
      }
      ReplaceAllSkipsPrefix(p[1..], s, pat, rep);
      calc {
        ReplaceAll(p + s, pat, rep);
        [p[0]] + ReplaceAll(t, pat, rep);
        [p[0]] + (p[1..] + ReplaceAll(s, pat, rep));
        { assert p == [p[0]] + p[1..]; }
        p + ReplaceAll(s, pat, rep);
      }
    } else {
      assert p + s == s;
    }
  }

  /** An occurrence at the very front is replaced first. */
  lemma ReplaceAllAtFront(s: string, pat: string, rep: string)
    requires |pat| > 0
    ensures ReplaceAll(pat + s, pat, rep) == rep + ReplaceAll(s, pat, rep)
  {
    assert (pat + s)[..|pat|] == pat;
    assert (pat + s)[|pat|..] == s;
  }
}
