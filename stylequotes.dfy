/**
 * The quote scan the XPath strategy runs on an inline `style` value: the regex
 * `"([^"]*)"` first, then `'([^"]*)'` (whose character class excludes the double
 * quote, not the single one), and the empty string when neither matches.
 */
module StyleQuotes {
  import opened Wrappers

  /** The first index at or after `from` holding `c`. */
  function IndexOf(s: string, c: char, from: nat): (r: Option<nat>)
    ensures r.Some? ==> from <= r.value < |s| && s[r.value] == c
    ensures r.Some? ==> forall i :: from <= i < r.value ==> s[i] != c
    ensures r.None? ==> forall i :: from <= i < |s| ==> s[i] != c
    decreases |s| - from
  {
    if from >= |s| then None
    else if s[from] == c then Some(from)
    else IndexOf(s, c, from + 1)
  }

  /** The last index in `[lo, hi)` holding `c`. */
  function LastIndexOf(s: string, c: char, lo: nat, hi: nat): (r: Option<nat>)
    requires hi <= |s|
    ensures r.Some? ==> lo <= r.value < hi && s[r.value] == c
    ensures r.Some? ==> forall i :: r.value < i < hi ==> s[i] != c
    ensures r.None? ==> forall i :: lo <= i < hi ==> s[i] != c
    decreases hi
  {
    if hi <= lo then None
    else if s[hi - 1] == c then Some(hi - 1)
    else LastIndexOf(s, c, lo, hi - 1)
  }

  /** `g` sits in `s` between two `c` characters, the first at index `i`. */
  predicate Delimits(s: string, c: char, i: int, g: string) {
    0 <= i && i + |g| + 1 < |s| && s[i] == c && s[i + |g| + 1] == c && s[i + 1..i + |g| + 1] == g
  }

  /** No `c` occurs before index `i`. */
  predicate NoneBefore(s: string, c: char, i: int) {
    forall k :: 0 <= k < i && k < |s| ==> s[k] != c
  }

  /** Group 1 of the leftmost match of `"([^"]*)"`. */
  function DoubleQuoted(s: string): (r: Option<string>)
    ensures r.Some? ==> exists i :: Delimits(s, '"', i, r.value) && NoneBefore(s, '"', i)
    ensures r.Some? ==> '"' !in r.value
    ensures r.None? ==> forall i, j :: 0 <= i < j < |s| && s[i] == '"' ==> s[j] != '"'
  {
    var first := IndexOf(s, '"', 0);
    if first.None? then None
    else
      var i := first.value;
      var second := IndexOf(s, '"', i + 1);
      if second.None? then None
      else
        var g := s[i + 1..second.value];
        assert i + |g| + 1 == second.value;
        assert Delimits(s, '"', i, g) && NoneBefore(s, '"', i);
        Some(g)
  }

  /** Where a run of `[^"]*` starting at `from` ends: the next double quote, or the end of `s`. */
  function EndOfClass(s: string, from: nat): (e: nat)
    ensures from <= |s| ==> from <= e <= |s|
    ensures forall i :: from <= i < e && i < |s| ==> s[i] != '"'
    ensures e < |s| ==> s[e] == '"'
  {
    var i := IndexOf(s, '"', from);
    if i.Some? then i.value else |s|
  }

  /** No match of `'([^"]*)'` opens at `p`: every later single quote has a double quote before it. */
  predicate NoMatchOpensAt(s: string, p: nat) {
    forall k :: p < k < |s| && s[k] == '\'' ==> '"' in s[p + 1..k]
  }

  /**
   * `g` is group 1 of the leftmost match of `'([^"]*)'` whose opening quote is at or
   * after `from`: it opens at `p`, no earlier single quote from `from` opens a match,
   * and the closing quote is the last one before the next double quote (the class
   * is greedy).
   */
  predicate SingleMatch(s: string, from: nat, p: nat, g: string) {
    && from <= p
    && Delimits(s, '\'', p, g)
    && '"' !in g
    && (forall p' :: from <= p' < p && s[p'] == '\'' ==> NoMatchOpensAt(s, p'))
    && (forall i :: p + |g| + 1 < i < EndOfClass(s, p + |g| + 2) ==> s[i] != '\'')
  }

  /** Group 1 of the leftmost match of `'([^"]*)'` whose opening quote is at or after `from`. */
  function SingleQuotedFrom(s: string, from: nat): (r: Option<string>)
    ensures r.Some? ==> exists p :: SingleMatch(s, from, p, r.value)
    ensures r.None? ==> forall p :: from <= p < |s| && s[p] == '\'' ==> NoMatchOpensAt(s, p)
    decreases |s| - from
  {
    var open := IndexOf(s, '\'', from);
    if open.None? then None
    else
      var p := open.value;
      var q := EndOfClass(s, p + 1);
      var close := LastIndexOf(s, '\'', p + 1, q);
      if close.Some? then
        var g := s[p + 1..close.value];
        MatchAtOpen(s, from, p, q, close.value);
        Some(g)
      else
        var r := SingleQuotedFrom(s, p + 1);
        NoMatchAtOpen(s, p, q);
        if r.Some? then
          var p2 :| SingleMatch(s, p + 1, p2, r.value);
          LaterMatch(s, from, p, p2, r.value);
          r
        else
          NoMatchFromOpen(s, from, p);
          r
  }

  /** The first single quote from `from`, closed before the next double quote, opens the match. */
  lemma MatchAtOpen(s: string, from: nat, p: nat, q: nat, c: nat)
    requires from <= p < |s| && s[p] == '\'' && forall i :: from <= i < p ==> s[i] != '\''
    requires q == EndOfClass(s, p + 1) && LastIndexOf(s, '\'', p + 1, q) == Some(c)
    ensures SingleMatch(s, from, p, s[p + 1..c])
  {
    var g := s[p + 1..c];
    assert p + |g| + 1 == c;
    EndOfClassFrom(s, p + 1, c + 1);
    assert Delimits(s, '\'', p, g);
  }

  /** A match after the first single quote is leftmost from `from` when that quote opens none. */
  lemma LaterMatch(s: string, from: nat, p: nat, p2: nat, g: string)
    requires from <= p < |s| && s[p] == '\'' && forall i :: from <= i < p ==> s[i] != '\''
    requires NoMatchOpensAt(s, p) && SingleMatch(s, p + 1, p2, g)
    ensures SingleMatch(s, from, p2, g)
  {
  }

  /** No match from `from` when the first single quote opens none and none opens after it. */
  lemma NoMatchFromOpen(s: string, from: nat, p: nat)
    requires from <= p < |s| && forall i :: from <= i < p ==> s[i] != '\''
    requires NoMatchOpensAt(s, p)
    requires forall p' :: p + 1 <= p' < |s| && s[p'] == '\'' ==> NoMatchOpensAt(s, p')
    ensures forall p' :: from <= p' < |s| && s[p'] == '\'' ==> NoMatchOpensAt(s, p')
  {
  }

  /** Inside a run of `[^"]*`, the run ends where it ends from its start. */
  lemma EndOfClassFrom(s: string, a: nat, b: nat)
    requires a <= b <= EndOfClass(s, a)
    ensures EndOfClass(s, b) == EndOfClass(s, a)
  {
  }

  /**
   * A single quote at `p` that no single quote closes before the next double quote
   * at `q` opens no match: every later single quote lies past `q`.
   */
  lemma NoMatchAtOpen(s: string, p: nat, q: nat)
    requires p < |s| && q == EndOfClass(s, p + 1) && LastIndexOf(s, '\'', p + 1, q).None?
    ensures NoMatchOpensAt(s, p)
  {
    forall k | p < k < |s| && s[k] == '\''
      ensures '"' in s[p + 1..k]
    {
      assert q < k;
      assert s[p + 1..k][q - p - 1] == s[q];
    }
  }

  function SingleQuoted(s: string): Option<string> {
    SingleQuotedFrom(s, 0)
  }

  /** The `url(...)` argument as the XPath strategy reads it from a trimmed `style` value. */
  function StyleUrl(style: string): (r: string)
    ensures r != [] ==> '"' !in r
  {
    var dq := DoubleQuoted(style);
    if dq.Some? then dq.value
    else
      var sq := SingleQuoted(style);
      if sq.Some? then sq.value else ""
  }
}
