/**
 * The sitemap document: an arena of element nodes, each with a tag, its text and
 * the indices of its children in document order. `GeneratePageLinksAsXML` appends
 * one category element holding one `LOC` element per page link; the crawler finds
 * the element of a link again by the text of its `LOC` child.
 */
module SitemapXml {
  import opened Wrappers
  import opened Links

  datatype Node = Node(tag: string, text: string, children: seq<nat>)

  /** The document element a crawl starts from. */
  const root: Node := Node("SITEMAP", "", [])

  /** Every child index names a node of the arena. */
  ghost predicate WellFormed(ns: seq<Node>) {
    forall i, k :: 0 <= i < |ns| && 0 <= k < |ns[i].children| ==> ns[i].children[k] < |ns|
  }

  /** `b` extends `a`: nodes are only appended, and existing nodes only gain children at the end. */
  ghost predicate Grows(a: seq<Node>, b: seq<Node>) {
    |a| <= |b|
    && forall i :: 0 <= i < |a| ==>
      b[i].tag == a[i].tag && b[i].text == a[i].text && a[i].children <= b[i].children
  }

  lemma GrowsTransitive(a: seq<Node>, b: seq<Node>, c: seq<Node>)
    requires Grows(a, b) && Grows(b, c)
    ensures Grows(a, c)
  {
    forall i | 0 <= i < |a| ensures a[i].children <= c[i].children {
      assert a[i].children == b[i].children[..|a[i].children|];
      assert b[i].children == c[i].children[..|b[i].children|];
    }
  }

  /** One iteration of `GeneratePageLinksAsXML`: a category element and its `LOC` child, appended to `parent`. */
  function AppendLink(ns: seq<Node>, parent: nat, l: PageLink, encode: string -> string): (r: seq<Node>)
    requires parent < |ns|
    ensures |r| == |ns| + 2
  {
    var category := |ns|;
    var loc := |ns| + 1;
    ns[parent := ns[parent].(children := ns[parent].children + [category])]
      + [Node(Name(l.matchType), "", [loc]), Node("LOC", encode(l.link), [])]
  }

  /**
   * One iteration appends a category element named after the link's kind and its
   * `LOC` element holding the encoded link, and makes the category element the
   * parent's last child; no other node changes.
   */
  lemma AppendLinkShape(ns: seq<Node>, parent: nat, l: PageLink, encode: string -> string)
    requires parent < |ns|
    ensures var r := AppendLink(ns, parent, l, encode);
      && r[|ns|] == Node(Name(l.matchType), "", [|ns| + 1])
      && r[|ns| + 1] == Node("LOC", encode(l.link), [])
      && r[parent].children == ns[parent].children + [|ns|]
      && forall i :: 0 <= i < |ns| && i != parent ==> r[i] == ns[i]
  {
  }

  /** The arena after the whole loop over `links`. */
  function WithLinks(ns: seq<Node>, parent: nat, links: seq<PageLink>, encode: string -> string): (r: seq<Node>)
    requires parent < |ns|
    ensures |r| == |ns| + 2 * |links|
    decreases |links|
  {
    if links == [] then ns
    else WithLinks(AppendLink(ns, parent, links[0], encode), parent, links[1..], encode)
  }

  /** The loop's last iteration: the arena for `links` is the one for all but the last link, with the last appended. */
  lemma {:induction false} WithLinksLast(ns: seq<Node>, parent: nat, links: seq<PageLink>, encode: string -> string)
    requires parent < |ns| && links != []
    ensures WithLinks(ns, parent, links, encode)
      == AppendLink(WithLinks(ns, parent, links[..|links| - 1], encode), parent, links[|links| - 1], encode)
    decreases |links|
  {
    var first := AppendLink(ns, parent, links[0], encode);
    if |links| > 1 {
      var rest := links[1..];
      WithLinksLast(first, parent, rest, encode);
      assert rest[..|rest| - 1] == links[..|links| - 1][1..];
      assert rest[|rest| - 1] == links[|links| - 1];
    }
  }

  /** The indices `|ns|`, `|ns| + 2`, … of the category elements the loop appends. */
  function CategoryIndices(base: nat, n: nat): (r: seq<nat>)
    ensures |r| == n
    ensures forall k :: 0 <= k < n ==> r[k] == base + 2 * k
  {
    seq(n, k requires 0 <= k => base + 2 * k)
  }

  /**
   * The shape `GeneratePageLinksAsXML` promises: for the k-th link, a category
   * element named after its kind whose only child is a `LOC` holding the encoded
   * link; the parent gains those category elements in list order; no other node changes.
   */
  lemma WithLinksShape(ns: seq<Node>, parent: nat, links: seq<PageLink>, encode: string -> string)
    requires parent < |ns|
    ensures var r := WithLinks(ns, parent, links, encode);
      && r[..|ns|][parent := ns[parent]] == ns
      && r[parent].children == ns[parent].children + CategoryIndices(|ns|, |links|)
      && (forall k :: 0 <= k < |links| ==>
            && r[|ns| + 2 * k] == Node(Name(links[k].matchType), "", [|ns| + 2 * k + 1])
            && r[|ns| + 2 * k + 1] == Node("LOC", encode(links[k].link), []))
  {
    WithLinksKeepsOthers(ns, parent, links, encode);
    WithLinksChildren(ns, parent, links, encode);
    WithLinksNodes(ns, parent, links, encode);
  }

  /** A node that was there and is not the parent stays as it was. */
  lemma {:induction false} WithLinksKeeps(ns: seq<Node>, parent: nat, links: seq<PageLink>, encode: string -> string, i: nat)
    requires parent < |ns| && i < |ns| && i != parent
    ensures WithLinks(ns, parent, links, encode)[i] == ns[i]
    decreases |links|
  {
    if links != [] {
      var first := AppendLink(ns, parent, links[0], encode);
      AppendLinkShape(ns, parent, links[0], encode);
      WithLinksKeeps(first, parent, links[1..], encode, i);
    }
  }

  /** Apart from the parent's child list, the nodes that were there stay as they were. */
  lemma WithLinksKeepsOthers(ns: seq<Node>, parent: nat, links: seq<PageLink>, encode: string -> string)
    requires parent < |ns|
    ensures WithLinks(ns, parent, links, encode)[..|ns|][parent := ns[parent]] == ns
  {
    var r := WithLinks(ns, parent, links, encode);
    forall i | 0 <= i < |ns| && i != parent
      ensures r[i] == ns[i]
    {
      WithLinksKeeps(ns, parent, links, encode, i);
    }
  }

  /** The parent gains the category elements after its old children, in list order. */
  lemma {:induction false} WithLinksChildren(ns: seq<Node>, parent: nat, links: seq<PageLink>, encode: string -> string)
    requires parent < |ns|
    ensures WithLinks(ns, parent, links, encode)[parent].children == ns[parent].children + CategoryIndices(|ns|, |links|)
    decreases |links|
  {
    if links != [] {
      var first := AppendLink(ns, parent, links[0], encode);
      AppendLinkShape(ns, parent, links[0], encode);
      WithLinksChildren(first, parent, links[1..], encode);
      assert CategoryIndices(|ns|, |links|) == [|ns|] + CategoryIndices(|first|, |links| - 1);
    }
  }

  /** The k-th link becomes a category element at `|ns| + 2k` whose only child is its `LOC` element. */
  lemma {:induction false} WithLinksNode(ns: seq<Node>, parent: nat, links: seq<PageLink>, encode: string -> string, k: nat)
    requires parent < |ns| && k < |links|
    ensures var r := WithLinks(ns, parent, links, encode);
      && r[|ns| + 2 * k] == Node(Name(links[k].matchType), "", [|ns| + 2 * k + 1])
      && r[|ns| + 2 * k + 1] == Node("LOC", encode(links[k].link), [])
    decreases |links|
  {
    if k == 0 {
      WithLinksFirstNodes(ns, parent, links, encode);
    } else {
      var first := AppendLink(ns, parent, links[0], encode);
      WithLinksNode(first, parent, links[1..], encode, k - 1);
      assert links[1..][k - 1] == links[k];
    }
  }

  /** The first link's category and `LOC` elements come right after the old nodes. */
  lemma WithLinksFirstNodes(ns: seq<Node>, parent: nat, links: seq<PageLink>, encode: string -> string)
    requires parent < |ns| && links != []
    ensures WithLinks(ns, parent, links, encode)[|ns|] == Node(Name(links[0].matchType), "", [|ns| + 1])
    ensures WithLinks(ns, parent, links, encode)[|ns| + 1] == Node("LOC", encode(links[0].link), [])
  {
    var first := AppendLink(ns, parent, links[0], encode);
    AppendLinkShape(ns, parent, links[0], encode);
    WithLinksKeeps(first, parent, links[1..], encode, |ns|);
    WithLinksKeeps(first, parent, links[1..], encode, |ns| + 1);
  }

  /** `WithLinksNode` for every link at once. */
  lemma WithLinksNodes(ns: seq<Node>, parent: nat, links: seq<PageLink>, encode: string -> string)
    requires parent < |ns|
    ensures var r := WithLinks(ns, parent, links, encode);
      forall k :: 0 <= k < |links| ==>
        && r[|ns| + 2 * k] == Node(Name(links[k].matchType), "", [|ns| + 2 * k + 1])
        && r[|ns| + 2 * k + 1] == Node("LOC", encode(links[k].link), [])
  {
    forall k | 0 <= k < |links|
      ensures WithLinks(ns, parent, links, encode)[|ns| + 2 * k] == Node(Name(links[k].matchType), "", [|ns| + 2 * k + 1])
      ensures WithLinks(ns, parent, links, encode)[|ns| + 2 * k + 1] == Node("LOC", encode(links[k].link), [])
    {
      WithLinksNode(ns, parent, links, encode, k);
    }
  }

  /** Appending links keeps every child index in range and only extends the arena. */
  lemma {:induction false} WithLinksGrows(ns: seq<Node>, parent: nat, links: seq<PageLink>, encode: string -> string)
    requires parent < |ns| && WellFormed(ns)
    ensures WellFormed(WithLinks(ns, parent, links, encode))
    ensures Grows(ns, WithLinks(ns, parent, links, encode))
    decreases |links|
  {
    if links != [] {
      var first := AppendLink(ns, parent, links[0], encode);
      AppendLinkShape(ns, parent, links[0], encode);
      assert Grows(ns, first);
      assert WellFormed(first);
      WithLinksGrows(first, parent, links[1..], encode);
      GrowsTransitive(ns, first, WithLinks(first, parent, links[1..], encode));
    }
  }

  /** One of the elements `ds` is a `LOC` element whose text is `key`. */
  predicate LocAmong(ns: seq<Node>, ds: seq<nat>, key: string)
    decreases |ds|
  {
    ds != [] && ((ds[0] < |ns| && ns[ds[0]].tag == "LOC" && ns[ds[0]].text == key) || LocAmong(ns, ds[1..], key))
  }

  /** Element `c` has a `LOC` child whose text is `key`. */
  predicate HasLoc(ns: seq<Node>, c: nat, key: string) {
    c < |ns| && LocAmong(ns, ns[c].children, key)
  }

  /** Position of the first of `kids` that has a `LOC` child with text `key`. */
  function FirstWithLoc(ns: seq<Node>, kids: seq<nat>, key: string): (r: Option<nat>)
    ensures r.Some? ==> r.value < |kids| && HasLoc(ns, kids[r.value], key)
    ensures r.Some? ==> forall j :: 0 <= j < r.value ==> !HasLoc(ns, kids[j], key)
    ensures r.None? ==> forall j :: 0 <= j < |kids| ==> !HasLoc(ns, kids[j], key)
    decreases |kids|
  {
    if kids == [] then None
    else if HasLoc(ns, kids[0], key) then Some(0)
    else
      var rest := FirstWithLoc(ns, kids[1..], key);
      if rest.None? then None else Some(rest.value + 1)
  }

  /** `SelectSingleNode` of the children of `parent` whose `LOC/text()` is `key`: the first such child. */
  function FindChild(ns: seq<Node>, parent: nat, key: string): (r: Option<nat>)
    requires parent < |ns|
    ensures r.Some? ==> r.value in ns[parent].children && HasLoc(ns, r.value, key)
    ensures r.None? ==> forall c :: c in ns[parent].children ==> !HasLoc(ns, c, key)
  {
    var kids := ns[parent].children;
    var pos := FirstWithLoc(ns, kids, key);
    if pos.None? then None else Some(kids[pos.value])
  }

  /** The category element appended for the m-th link has a `LOC` with text `key` exactly when it encodes to `key`. */
  lemma AppendedHasLoc(ns: seq<Node>, parent: nat, links: seq<PageLink>, encode: string -> string, m: nat, key: string)
    requires parent < |ns| && m < |links|
    ensures HasLoc(WithLinks(ns, parent, links, encode), |ns| + 2 * m, key) <==> encode(links[m].link) == key
  {
    var r := WithLinks(ns, parent, links, encode);
    WithLinksNodes(ns, parent, links, encode);
    var loc := |ns| + 2 * m + 1;
    assert r[|ns| + 2 * m] == Node(Name(links[m].matchType), "", [loc]);
    assert r[loc] == Node("LOC", encode(links[m].link), []);
    assert [loc][1..] == [];
    assert LocAmong(r, [loc], key) == (r[loc].text == key);
  }

  /**
   * With an injective encoding, a link appended under a parent whose earlier
   * children hold no `LOC` for it is found again at its own category element.
   */
  lemma FindAppendedLink(ns: seq<Node>, parent: nat, links: seq<PageLink>, encode: string -> string, k: nat)
    requires parent < |ns| && k < |links|
    requires forall a, b :: encode(a) == encode(b) ==> a == b
    requires NoDuplicateLinks(links)
    requires forall c :: c in ns[parent].children ==> !HasLoc(WithLinks(ns, parent, links, encode), c, encode(links[k].link))
    ensures FindChild(WithLinks(ns, parent, links, encode), parent, encode(links[k].link)) == Some(|ns| + 2 * k)
  {
    WithLinksLayout(ns, parent, links, encode, encode(links[k].link));
    FindInLayout(WithLinks(ns, parent, links, encode), ns, parent, links, encode, k);
  }

  /**
   * What the lookup of `key` needs to know of an arena `r` built from `ns` by
   * appending `links` under `parent`.
   */
  ghost predicate Layout(r: seq<Node>, ns: seq<Node>, parent: nat, links: seq<PageLink>, encode: string -> string, key: string) {
    && parent < |ns| <= |r|
    && r[parent].children == ns[parent].children + CategoryIndices(|ns|, |links|)
    && forall m :: 0 <= m < |links| ==> (HasLoc(r, |ns| + 2 * m, key) <==> encode(links[m].link) == key)
  }

  lemma WithLinksLayout(ns: seq<Node>, parent: nat, links: seq<PageLink>, encode: string -> string, key: string)
    requires parent < |ns|
    ensures Layout(WithLinks(ns, parent, links, encode), ns, parent, links, encode, key)
  {
    WithLinksChildren(ns, parent, links, encode);
    AllAppendedHaveLoc(ns, parent, links, encode, key);
  }

  lemma FindInLayout(r: seq<Node>, ns: seq<Node>, parent: nat, links: seq<PageLink>, encode: string -> string, k: nat)
    requires k < |links| && Layout(r, ns, parent, links, encode, encode(links[k].link))
    requires forall a, b :: encode(a) == encode(b) ==> a == b
    requires NoDuplicateLinks(links)
    requires forall c :: c in ns[parent].children ==> !HasLoc(r, c, encode(links[k].link))
    ensures FindChild(r, parent, encode(links[k].link)) == Some(|ns| + 2 * k)
  {
    OnlyOwnKey(links, encode, k);
    FindAmongAppended(r, parent, ns[parent].children, |ns|, links, encode, k);
  }

  /** `AppendedHasLoc` for every appended element at once. */
  lemma AllAppendedHaveLoc(ns: seq<Node>, parent: nat, links: seq<PageLink>, encode: string -> string, key: string)
    requires parent < |ns|
    ensures forall m :: 0 <= m < |links| ==> (HasLoc(WithLinks(ns, parent, links, encode), |ns| + 2 * m, key) <==> encode(links[m].link) == key)
  {
    forall m | 0 <= m < |links|
      ensures HasLoc(WithLinks(ns, parent, links, encode), |ns| + 2 * m, key) <==> encode(links[m].link) == key
    {
      AppendedHasLoc(ns, parent, links, encode, m, key);
    }
  }

  /** With an injective encoding and distinct links, no other link encodes like link `k`. */
  lemma OnlyOwnKey(links: seq<PageLink>, encode: string -> string, k: nat)
    requires k < |links|
    requires forall a, b :: encode(a) == encode(b) ==> a == b
    requires NoDuplicateLinks(links)
    ensures forall m :: 0 <= m < |links| && encode(links[m].link) == encode(links[k].link) ==> m == k
  {
    forall m | 0 <= m < |links| && encode(links[m].link) == encode(links[k].link)
      ensures m == k
    {
      assert links[m].link == links[k].link;
    }
  }

  /**
   * The lookup among old children followed by appended elements `base`, `base + 2`, …
   * stops at the only appended element with the key when no old child has it.
   */
  lemma FindAmongAppended(r: seq<Node>, parent: nat, before: seq<nat>, base: nat, links: seq<PageLink>, encode: string -> string, k: nat)
    requires parent < |r| && k < |links|
    requires r[parent].children == before + CategoryIndices(base, |links|)
    requires forall c :: c in before ==> !HasLoc(r, c, encode(links[k].link))
    requires forall m :: 0 <= m < |links| ==> (HasLoc(r, base + 2 * m, encode(links[k].link)) <==> encode(links[m].link) == encode(links[k].link))
    requires forall m :: 0 <= m < |links| && encode(links[m].link) == encode(links[k].link) ==> m == k
    ensures FindChild(r, parent, encode(links[k].link)) == Some(base + 2 * k)
  {
    var key := encode(links[k].link);
    var kids := r[parent].children;
    var appended := CategoryIndices(base, |links|);
    assert kids[|before| + k] == appended[k] == base + 2 * k;
    assert HasLoc(r, base + 2 * k, key);
    assert forall c :: 0 <= c < |before| ==> kids[c] == before[c];
    var pos := FirstWithLoc(r, kids, key);
    assert pos.Some?;
    var j := pos.value;
    var m := j - |before|;
    assert 0 <= m < |links|;
    assert kids[j] == appended[m] == base + 2 * m;
    assert HasLoc(r, base + 2 * m, key);
    assert encode(links[m].link) == key;
  }

  /** The `XmlDocument` the crawler writes into. */
  class Sitemap {
    var nodes: seq<Node>

    ghost predicate Valid()
      reads this
    {
      0 < |nodes| && WellFormed(nodes)
    }

    /** `CreateElement("SITEMAP")` appended to an empty document. */
    constructor ()
      ensures nodes == [root]
      ensures Valid()
    {
      nodes := [root];
    }

    /** `GeneratePageLinksAsXML`; `None` is the null list it ignores. */
    method GeneratePageLinksAsXML(pageLinks: Option<seq<PageLink>>, parent: nat, encode: string -> string)
      requires Valid() && parent < |nodes|
      modifies this
      ensures Valid()
      ensures pageLinks.None? ==> nodes == old(nodes)
      ensures pageLinks.Some? ==> nodes == WithLinks(old(nodes), parent, pageLinks.value, encode)
    {
      if pageLinks.None? {
        return;
      }
      var links := pageLinks.value;
      var i := 0;
      while i < |links|
        invariant 0 <= i <= |links|
        invariant parent < |nodes|
        invariant nodes == WithLinks(old(nodes), parent, links[..i], encode)
      {
        ghost var before := nodes;
        var thisNode := |nodes|;
        var locNode := |nodes| + 1;
        nodes := nodes[parent := nodes[parent].(children := nodes[parent].children + [thisNode])]
          + [Node(Name(links[i].matchType), "", [locNode]), Node("LOC", encode(links[i].link), [])];
        assert nodes == AppendLink(before, parent, links[i], encode);
        assert links[..i + 1][..i] == links[..i] && links[..i + 1][i] == links[i];
        WithLinksLast(old(nodes), parent, links[..i + 1], encode);
        i := i + 1;
      }
      assert links[..|links|] == links;
      WithLinksGrows(old(nodes), parent, links, encode);
    }
  }
}
