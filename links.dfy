/**
 * `PageLink`, `MatchType` and the `Distinct()` the extraction strategies apply:
 * two page links are equal exactly when their `Link` strings are.
 */
module Links {

  /** The seven categories, in the enum's declaration order. */
  datatype MatchType = URL | AREA | IMAGE | MEDIA | CSSBACKGROUND | SCRIPT | CSSLINK

  /** `Enum.GetName`: the element name a category is written under in the sitemap. */
  function Name(t: MatchType): string {
    match t
    case URL => "URL"
    case AREA => "AREA"
    case IMAGE => "IMAGE"
    case MEDIA => "MEDIA"
    case CSSBACKGROUND => "CSSBACKGROUND"
    case SCRIPT => "SCRIPT"
    case CSSLINK => "CSSLINK"
  }

  /** Category names are distinct, so a node's tag determines its category. */
  lemma NameInjective(s: MatchType, t: MatchType)
    ensures Name(s) == Name(t) <==> s == t
  {
  }

  /** The position of a category in the extraction order (not the enum order). */
  function Rank(t: MatchType): nat {
    match t
    case URL => 0
    case AREA => 1
    case IMAGE => 2
    case MEDIA => 3
    case SCRIPT => 4
    case CSSLINK => 5
    case CSSBACKGROUND => 6
  }

  datatype PageLink = PageLink(link: string, matchType: MatchType, canBeCrawled: bool)

  function LinkSet(s: seq<PageLink>): set<string> {
    set i | 0 <= i < |s| :: s[i].link
  }

  lemma LinkSetAppend(d: seq<PageLink>, x: PageLink)
    ensures LinkSet(d + [x]) == LinkSet(d) + {x.link}
  {
    var e := d + [x];
    assert forall i :: 0 <= i < |d| ==> e[i] == d[i];
    assert e[|d|] == x;
    forall l | l in LinkSet(e) ensures l in LinkSet(d) + {x.link} {
      var i :| 0 <= i < |e| && e[i].link == l;
      if i < |d| { assert d[i].link == l; }
    }
  }

  predicate NoDuplicateLinks(s: seq<PageLink>) {
    forall i, j :: 0 <= i < j < |s| ==> s[i].link != s[j].link
  }

  /** Entries appear in extraction order of their categories. */
  predicate CategoryOrdered(s: seq<PageLink>) {
    forall i, j :: 0 <= i < j < |s| ==> Rank(s[i].matchType) <= Rank(s[j].matchType)
  }

  /** `s[j]` is the first entry of `s` with its link. */
  predicate FirstOfItsLink(s: seq<PageLink>, j: int)
    requires 0 <= j < |s|
  {
    forall i :: 0 <= i < j ==> s[i].link != s[j].link
  }

  /** `Distinct()` under `PageLink.Equals`: the first entry for each link, in input order. */
  function DistinctByLink(s: seq<PageLink>): (r: seq<PageLink>)
    ensures NoDuplicateLinks(r)
    ensures LinkSet(r) == LinkSet(s)
    ensures forall k :: 0 <= k < |r| ==> r[k] in s
    decreases |s|
  {
    if s == [] then []
    else
      var d := DistinctByLink(s[..|s| - 1]);
      var last := s[|s| - 1];
      assert LinkSet(s) == LinkSet(s[..|s| - 1]) + {last.link} by {
        assert forall i :: 0 <= i < |s| - 1 ==> s[..|s| - 1][i] == s[i];
      }
      if last.link in LinkSet(d) then d
      else
        LinkSetAppend(d, last);
        d + [last]
  }

  /** The first entry for every link survives deduplication. */
  lemma {:induction false} DistinctKeepsFirst(s: seq<PageLink>, j: int)
    requires 0 <= j < |s| && FirstOfItsLink(s, j)
    ensures s[j] in DistinctByLink(s)
    decreases |s|
  {
    var init := s[..|s| - 1];
    var d := DistinctByLink(init);
    if j < |s| - 1 {
      assert FirstOfItsLink(init, j);
      DistinctKeepsFirst(init, j);
    }
  }

  /** Hence each output entry is the first input entry with its link: first seen wins. */
  lemma DistinctIsFirstSeen(s: seq<PageLink>, k: int, j: int)
    requires 0 <= k < |DistinctByLink(s)| && 0 <= j < |s| && FirstOfItsLink(s, j)
    requires DistinctByLink(s)[k].link == s[j].link
    ensures DistinctByLink(s)[k] == s[j]
  {
    var r := DistinctByLink(s);
    DistinctKeepsFirst(s, j);
    var m :| 0 <= m < |r| && r[m] == s[j];
  }

  /** Deduplication keeps input order, so the category order survives it. */
  lemma {:induction false} DistinctKeepsOrder(s: seq<PageLink>)
    requires CategoryOrdered(s)
    ensures CategoryOrdered(DistinctByLink(s))
    decreases |s|
  {
    if s != [] {
      var init := s[..|s| - 1];
      assert CategoryOrdered(init);
      DistinctKeepsOrder(init);
      var d := DistinctByLink(init);
      var last := s[|s| - 1];
      forall k | 0 <= k < |d| ensures Rank(d[k].matchType) <= Rank(last.matchType) {
        var i :| 0 <= i < |init| && init[i] == d[k];
        assert init[i] == s[i];
      }
    }
  }

  /** The index of the first entry of `s` with link `l`, or `|s|` when there is none. */
  function FirstPos(s: seq<PageLink>, l: string): (p: nat)
    ensures p <= |s|
    ensures p < |s| ==> s[p].link == l
    ensures forall i :: 0 <= i < p && i < |s| ==> s[i].link != l
    decreases |s|
  {
    if s == [] then 0
    else
      var init := s[..|s| - 1];
      var p := FirstPos(init, l);
      assert forall i :: 0 <= i < |init| ==> init[i] == s[i];
      if p < |init| then p
      else if s[|s| - 1].link == l then |s| - 1
      else |s|
  }

  /** Appending an entry does not move the first position of a link already present. */
  lemma FirstPosExtend(s: seq<PageLink>, l: string)
    requires s != []
    ensures var init := s[..|s| - 1];
      && (FirstPos(init, l) < |init| ==> FirstPos(s, l) == FirstPos(init, l))
      && (FirstPos(init, l) == |init| && s[|s| - 1].link == l ==> FirstPos(s, l) == |init|)
  {
  }

  /** A link has a first position exactly when it occurs. */
  lemma FirstPosInLinkSet(s: seq<PageLink>, l: string)
    ensures FirstPos(s, l) < |s| <==> l in LinkSet(s)
  {
    if l in LinkSet(s) {
      var i :| 0 <= i < |s| && s[i].link == l;
    }
  }

  /** The `k`-th entry after deduplication is the first input entry with its link. */
  lemma {:induction false} DistinctEntryIsFirst(s: seq<PageLink>, k: nat)
    requires k < |DistinctByLink(s)|
    ensures FirstPos(s, DistinctByLink(s)[k].link) < |s|
    ensures DistinctByLink(s)[k] == s[FirstPos(s, DistinctByLink(s)[k].link)]
    decreases |s|
  {
    var init := s[..|s| - 1];
    var last := s[|s| - 1];
    var d := DistinctByLink(init);
    var r := DistinctByLink(s);
    assert forall i :: 0 <= i < |init| ==> init[i] == s[i];
    if k < |d| {
      assert r[k] == d[k];
      DistinctEntryIsFirst(init, k);
      FirstPosExtend(s, d[k].link);
    } else {
      assert r == d + [last] && r[k] == last;
      FirstPosInLinkSet(init, last.link);
      FirstPosExtend(s, last.link);
    }
  }

  /** Entries kept earlier come from earlier input positions. */
  lemma {:induction false} DistinctKeepsPositions(s: seq<PageLink>, i: nat, j: nat)
    requires i < j < |DistinctByLink(s)|
    ensures FirstPos(s, DistinctByLink(s)[i].link) < FirstPos(s, DistinctByLink(s)[j].link)
    decreases |s|
  {
    var init := s[..|s| - 1];
    var last := s[|s| - 1];
    var d := DistinctByLink(init);
    var r := DistinctByLink(s);
    assert r[i] == d[i];
    DistinctEntryIsFirst(init, i);
    FirstPosExtend(s, d[i].link);
    if j < |d| {
      assert r[j] == d[j];
      DistinctEntryIsFirst(init, j);
      FirstPosExtend(s, d[j].link);
      DistinctKeepsPositions(init, i, j);
    } else {
      assert r == d + [last] && r[j] == last;
      FirstPosInLinkSet(init, last.link);
      FirstPosExtend(s, last.link);
    }
  }

  /**
   * Deduplication keeps the first occurrences in input order: each output entry is
   * the first input entry with its link, and output positions follow input positions.
   */
  lemma DistinctInInputOrder(s: seq<PageLink>)
    ensures var r := DistinctByLink(s);
      && (forall k :: 0 <= k < |r| ==> FirstPos(s, r[k].link) < |s| && r[k] == s[FirstPos(s, r[k].link)])
      && (forall i, j :: 0 <= i < j < |r| ==> FirstPos(s, r[i].link) < FirstPos(s, r[j].link))
  {
    var r := DistinctByLink(s);
    forall k | 0 <= k < |r|
      ensures FirstPos(s, r[k].link) < |s| && r[k] == s[FirstPos(s, r[k].link)]
    {
      DistinctEntryIsFirst(s, k);
    }
    forall i, j | 0 <= i < j < |r|
      ensures FirstPos(s, r[i].link) < FirstPos(s, r[j].link)
    {
      DistinctKeepsPositions(s, i, j);
    }
  }

  /** `Distinct()` as the source runs it: one pass with the set of links already kept. */
  method Distinct(s: seq<PageLink>) returns (r: seq<PageLink>)
    ensures r == DistinctByLink(s)
  {
    r := [];
    var seen: set<string> := {};
    var i := 0;
    while i < |s|
      invariant 0 <= i <= |s|
      invariant r == DistinctByLink(s[..i])
      invariant seen == LinkSet(r)
    {
      assert s[..i + 1][..i] == s[..i];
      if s[i].link !in seen {
        LinkSetAppend(r, s[i]);
        r := r + [s[i]];
        seen := seen + {s[i].link};
      }
      i := i + 1;
    }
    assert s[..|s|] == s;
  }
}
