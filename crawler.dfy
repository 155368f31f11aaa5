/**
 * `Crawl` and `CrawlRecursively`: a depth-first walk over crawlable links that
 * reads each page at most once and stops following links once the dictionary of
 * read pages holds `maxIndexedPageSize` entries.
 */
module Crawler {
  import opened Wrappers
  import opened Environment
  import opened Urls
  import opened Links
  import opened Extraction
  import opened SitemapXml
  import opened PageCache

  /** The dictionary of read pages together with the sitemap arena. */
  datatype State = State(pages: map<string, string>, nodes: seq<Node>)

  /** How many more pages may still be read when `n` are cached. */
  function Budget(n: nat, max: int): nat {
    if n < max then max - n else 0
  }

  /** The most pages the dictionary can hold once crawling from `n` cached pages stops. */
  function Ceiling(n: nat, max: int): int {
    if n < max then max else n
  }

  /** Every page added between `before` and `after` holds what its download yielded. */
  ghost predicate NewPagesDownloaded(env: Env, before: map<string, string>, after: map<string, string>) {
    forall k :: k in after && k !in before ==> after[k] == Downloaded(env.fetch, k)
  }

  /** Every page added between `before` and `after` satisfies `ok`. */
  ghost predicate NewPagesSatisfy(ok: string -> bool, before: map<string, string>, after: map<string, string>) {
    forall k :: k in after && k !in before ==> ok(k)
  }

  /** Every link `extract` marks crawlable satisfies `ok`. */
  ghost predicate CrawlableSatisfy(ok: string -> bool, extract: (string, string) -> seq<PageLink>) {
    forall page, url, e :: e in extract(page, url) && e.canBeCrawled ==> ok(e.link)
  }

  /** `GetPageLinks` with the crawl domain fixed, as the walk calls it: page body and page URL to links. */
  function ExtractorFor(env: Env, domain: string): (string, string) -> seq<PageLink> {
    (page, url) => PageLinks(env, page, url, domain)
  }

  /** The crawl domain test, as a predicate on links. */
  function OnDomain(env: Env, domain: string): string -> bool {
    link => CouldBeCrawled(env.parseUri, link, domain)
  }

  /** The extraction strategies only mark links on the crawl domain crawlable. */
  lemma ExtractorFollowable(env: Env, domain: string)
    ensures CrawlableSatisfy(OnDomain(env, domain), ExtractorFor(env, domain))
  {
    forall page, url, e | e in ExtractorFor(env, domain)(page, url) && e.canBeCrawled
      ensures OnDomain(env, domain)(e.link)
    {
      PageLinksClassified(env, page, url, domain);
    }
  }

  /** What one step of the walk keeps: nothing cached is lost or changed, the budget holds, the tree only grows. */
  ghost predicate Progress(env: Env, domain: string, max: int, st: State, r: State) {
    && Extends(st.pages, r.pages)
    && |st.pages| <= |r.pages| <= Ceiling(|st.pages|, max)
    && WellFormed(r.nodes)
    && Grows(st.nodes, r.nodes)
  }

  /**
   * One iteration of the `foreach` in `CrawlRecursively`, for link `l` listed
   * under `parent`: a crawlable link found under `parent` while the budget lasts
   * is read and walked when new, and only re-listed when already read.
   */
  function Visit(env: Env, extract: (string, string) -> seq<PageLink>, domain: string, max: int, l: PageLink, parent: nat, url: string, st: State): (r: State)
    requires WellFormed(st.nodes) && parent < |st.nodes|
    ensures Progress(env, domain, max, st, r)
    ensures NewPagesDownloaded(env, st.pages, r.pages)
    ensures !l.canBeCrawled || max <= |st.pages| ==> r == st
    ensures l.link in st.pages ==> r.pages == st.pages
    ensures FindChild(st.nodes, parent, env.encode(l.link)).None? ==> r == st
    decreases Budget(|st.pages|, max), 0, 1
  {
    if !(|st.pages| < max && l.canBeCrawled) then st
    else
      var thisNode := FindChild(st.nodes, parent, env.encode(l.link));
      if thisNode.None? then st
      else if l.link !in st.pages then Follow(env, extract, domain, max, l.link, thisNode.value, url, st)
      else Relist(env, extract, l.link, thisNode.value, url, st)
  }

  /**
   * A new page: read it, list its links under its element `n` and walk them.
   * Its links are extracted against `url`, the address of the page that listed
   * it, while the walk below it runs with the page's own address.
   */
  function Follow(env: Env, extract: (string, string) -> seq<PageLink>, domain: string, max: int, link: string, n: nat, url: string, st: State): (r: State)
    requires WellFormed(st.nodes) && n < |st.nodes|
    requires |st.pages| < max && link !in st.pages
    ensures Progress(env, domain, max, st, r)
    ensures NewPagesDownloaded(env, st.pages, r.pages)
    ensures link in r.pages && r.pages[link] == Downloaded(env.fetch, link)
    ensures Grows(WithLinks(st.nodes, n, extract(Downloaded(env.fetch, link), url), env.encode), r.nodes)
    decreases Budget(|st.pages|, max), 0, 0
  {
    var read := Read(st.pages, link, env.fetch);
    var kids := extract(read.body, url);
    WithLinksGrows(st.nodes, n, kids, env.encode);
    var generated := State(read.pages, WithLinks(st.nodes, n, kids, env.encode));
    var r := CrawlFrom(env, extract, domain, max, kids, 0, n, link, generated);
    FollowChain(env, domain, max, link, st, generated, r);
    r
  }

  /** Reading a new page and then walking on composes into one step of progress that caches the page. */
  lemma FollowChain(env: Env, domain: string, max: int, link: string, st: State, mid: State, r: State)
    requires |st.pages| < max && link !in st.pages
    requires mid.pages == st.pages[link := Downloaded(env.fetch, link)]
    requires Grows(st.nodes, mid.nodes)
    requires Progress(env, domain, max, mid, r) && NewPagesDownloaded(env, mid.pages, r.pages)
    ensures Progress(env, domain, max, st, r) && NewPagesDownloaded(env, st.pages, r.pages)
    ensures link in r.pages && r.pages[link] == Downloaded(env.fetch, link)
  {
    PagesChain(env, max, link, st.pages, mid.pages, r.pages);
    GrowsTransitive(st.nodes, mid.nodes, r.nodes);
  }

  /** The dictionary half of `FollowChain`. */
  lemma PagesChain(env: Env, max: int, link: string, a: map<string, string>, b: map<string, string>, c: map<string, string>)
    requires |a| < max && link !in a && b == a[link := Downloaded(env.fetch, link)]
    requires Extends(b, c) && |b| <= |c| <= Ceiling(|b|, max) && NewPagesDownloaded(env, b, c)
    ensures Extends(a, c) && |a| <= |c| <= Ceiling(|a|, max) && NewPagesDownloaded(env, a, c)
    ensures link in c && c[link] == Downloaded(env.fetch, link)
  {
    assert |b| == |a| + 1 by {
      assert b.Keys == a.Keys + {link};
    }
    ExtendsTransitive(a, b, c);
    forall k | k in c && k !in a
      ensures c[k] == Downloaded(env.fetch, k)
    {
      if k != link {
        assert k !in b;
      }
    }
  }

  lemma ExtendsTransitive(a: map<string, string>, b: map<string, string>, c: map<string, string>)
    requires Extends(a, b) && Extends(b, c)
    ensures Extends(a, c)
  {
  }

  /** A page read before: its stored body's links are listed under `n` again, and not walked. */
  function Relist(env: Env, extract: (string, string) -> seq<PageLink>, link: string, n: nat, url: string, st: State): (r: State)
    requires WellFormed(st.nodes) && n < |st.nodes| && link in st.pages
    ensures r.pages == st.pages
    ensures WellFormed(r.nodes) && Grows(st.nodes, r.nodes)
  {
    var kids := extract(st.pages[link], url);
    WithLinksGrows(st.nodes, n, kids, env.encode);
    State(st.pages, WithLinks(st.nodes, n, kids, env.encode))
  }

  /** The `foreach` in `CrawlRecursively` from position `i` of `links` on. */
  function CrawlFrom(env: Env, extract: (string, string) -> seq<PageLink>, domain: string, max: int, links: seq<PageLink>, i: nat, parent: nat, url: string, st: State): (r: State)
    requires i <= |links| && WellFormed(st.nodes) && parent < |st.nodes|
    ensures Progress(env, domain, max, st, r)
    ensures NewPagesDownloaded(env, st.pages, r.pages)
    decreases Budget(|st.pages|, max), |links| - i, 2
  {
    if i == |links| then st
    else
      var next := Visit(env, extract, domain, max, links[i], parent, url, st);
      var r := CrawlFrom(env, extract, domain, max, links, i + 1, parent, url, next);
      GrowsTransitive(st.nodes, next.nodes, r.nodes);
      r
  }

  /** `Crawl`: read the domain page, list its links under `SITEMAP`, then walk them. */
  function CrawlResult(env: Env, domain: string, pages: map<string, string>, max: int): State {
    var first := Read(pages, domain, env.fetch);
    var links := PageLinks(env, first.body, domain, domain);
    WithLinksGrows([root], 0, links, env.encode);
    CrawlFrom(env, ExtractorFor(env, domain), domain, max, links, 0, 0, domain, State(first.pages, WithLinks([root], 0, links, env.encode)))
  }

  // ---------------------------------------------------------------- properties

  /** A visit only reads pages whose links satisfy any `ok` that all crawlable links satisfy. */
  lemma VisitReadsOnly(env: Env, extract: (string, string) -> seq<PageLink>, domain: string, max: int, l: PageLink,
                       parent: nat, url: string, st: State, ok: string -> bool)
    requires WellFormed(st.nodes) && parent < |st.nodes|
    requires CrawlableSatisfy(ok, extract) && (l.canBeCrawled ==> ok(l.link))
    ensures NewPagesSatisfy(ok, st.pages, Visit(env, extract, domain, max, l, parent, url, st).pages)
    decreases Budget(|st.pages|, max), 0, 1
  {
    if |st.pages| < max && l.canBeCrawled {
      var thisNode := FindChild(st.nodes, parent, env.encode(l.link));
      if thisNode.Some? && l.link !in st.pages {
        FollowReadsOnly(env, extract, domain, max, l.link, thisNode.value, url, st, ok);
      }
    }
  }

  lemma FollowReadsOnly(env: Env, extract: (string, string) -> seq<PageLink>, domain: string, max: int, link: string,
                        n: nat, url: string, st: State, ok: string -> bool)
    requires WellFormed(st.nodes) && n < |st.nodes|
    requires |st.pages| < max && link !in st.pages
    requires CrawlableSatisfy(ok, extract) && ok(link)
    ensures NewPagesSatisfy(ok, st.pages, Follow(env, extract, domain, max, link, n, url, st).pages)
    decreases Budget(|st.pages|, max), 0, 0
  {
    var read := Read(st.pages, link, env.fetch);
    ReadMiss(st.pages, link, env.fetch);
    var kids := extract(read.body, url);
    WithLinksGrows(st.nodes, n, kids, env.encode);
    var generated := State(read.pages, WithLinks(st.nodes, n, kids, env.encode));
    CrawlFromReadsOnly(env, extract, domain, max, kids, 0, n, link, generated, ok);
  }

  lemma CrawlFromReadsOnly(env: Env, extract: (string, string) -> seq<PageLink>, domain: string, max: int, links: seq<PageLink>,
                           i: nat, parent: nat, url: string, st: State, ok: string -> bool)
    requires i <= |links| && WellFormed(st.nodes) && parent < |st.nodes|
    requires CrawlableSatisfy(ok, extract) && (forall e :: e in links && e.canBeCrawled ==> ok(e.link))
    ensures NewPagesSatisfy(ok, st.pages, CrawlFrom(env, extract, domain, max, links, i, parent, url, st).pages)
    decreases Budget(|st.pages|, max), |links| - i, 2
  {
    if i < |links| {
      var next := Visit(env, extract, domain, max, links[i], parent, url, st);
      VisitReadsOnly(env, extract, domain, max, links[i], parent, url, st, ok);
      CrawlFromReadsOnly(env, extract, domain, max, links, i + 1, parent, url, next, ok);
    }
  }

  /**
   * A crawlable link not yet read and found under `parent` while the budget lasts is
   * followed: its page is downloaded and cached, its links (extracted against `url`)
   * are listed under the element found for it, and the walk below it only adds to that.
   */
  lemma VisitFollowsNew(env: Env, extract: (string, string) -> seq<PageLink>, domain: string, max: int, l: PageLink, parent: nat, url: string, st: State)
    requires WellFormed(st.nodes) && parent < |st.nodes|
    requires |st.pages| < max && l.canBeCrawled && l.link !in st.pages
    requires FindChild(st.nodes, parent, env.encode(l.link)).Some?
    ensures var n := FindChild(st.nodes, parent, env.encode(l.link)).value;
      var r := Visit(env, extract, domain, max, l, parent, url, st);
      && r == Follow(env, extract, domain, max, l.link, n, url, st)
      && l.link in r.pages && r.pages[l.link] == Downloaded(env.fetch, l.link)
      && Grows(WithLinks(st.nodes, n, extract(Downloaded(env.fetch, l.link), url), env.encode), r.nodes)
  {
  }

  /**
   * A crawlable link already read and found under `parent` is listed again from its
   * stored body under the element found for it: no download, no walk below it.
   */
  lemma VisitCachedRelists(env: Env, extract: (string, string) -> seq<PageLink>, domain: string, max: int, l: PageLink, parent: nat, url: string, st: State)
    requires WellFormed(st.nodes) && parent < |st.nodes|
    requires |st.pages| < max && l.canBeCrawled && l.link in st.pages
    requires FindChild(st.nodes, parent, env.encode(l.link)).Some?
    ensures var n := FindChild(st.nodes, parent, env.encode(l.link)).value;
      var r := Visit(env, extract, domain, max, l, parent, url, st);
      && r.pages == st.pages
      && r.nodes == WithLinks(st.nodes, n, extract(st.pages[l.link], url), env.encode)
  {
  }

  /** One turn of the loop: the walk from `i` visits link `i`, then walks on from `i + 1`. */
  lemma CrawlFromStep(env: Env, extract: (string, string) -> seq<PageLink>, domain: string, max: int, links: seq<PageLink>, i: nat, parent: nat, url: string, st: State)
    requires i < |links| && WellFormed(st.nodes) && parent < |st.nodes|
    ensures var next := Visit(env, extract, domain, max, links[i], parent, url, st);
      CrawlFrom(env, extract, domain, max, links, i, parent, url, st)
        == CrawlFrom(env, extract, domain, max, links, i + 1, parent, url, next)
  {
  }

  /** With the budget used up, the rest of the loop changes nothing. */
  lemma {:induction false} CrawlFromExhausted(env: Env, extract: (string, string) -> seq<PageLink>, domain: string, max: int, links: seq<PageLink>, i: nat, parent: nat, url: string, st: State)
    requires i <= |links| && WellFormed(st.nodes) && parent < |st.nodes|
    requires max <= |st.pages|
    ensures CrawlFrom(env, extract, domain, max, links, i, parent, url, st) == st
    decreases |links| - i
  {
    if i < |links| {
      CrawlFromExhausted(env, extract, domain, max, links, i + 1, parent, url, st);
    }
  }

  /** Links not marked crawlable are never followed. */
  lemma {:induction false} CrawlFromNothingCrawlable(env: Env, extract: (string, string) -> seq<PageLink>, domain: string, max: int, links: seq<PageLink>, i: nat, parent: nat, url: string, st: State)
    requires i <= |links| && WellFormed(st.nodes) && parent < |st.nodes|
    requires forall j :: i <= j < |links| ==> !links[j].canBeCrawled
    ensures CrawlFrom(env, extract, domain, max, links, i, parent, url, st) == st
    decreases |links| - i
  {
    if i < |links| {
      CrawlFromNothingCrawlable(env, extract, domain, max, links, i + 1, parent, url, st);
    }
  }

  /**
   * The crawl budget: the dictionary never exceeds `maxIndexedPageSize` entries
   * beyond what it held after the domain page was read, keeps every entry it was
   * given, and gains only the domain page and downloaded pages on the crawl domain.
   */
  lemma CrawlBudget(env: Env, domain: string, pages: map<string, string>, max: int)
    ensures var r := CrawlResult(env, domain, pages, max);
      && Extends(pages, r.pages)
      && domain in r.pages
      && |r.pages| <= Ceiling(|Read(pages, domain, env.fetch).pages|, max)
      && |Read(pages, domain, env.fetch).pages| <= |pages| + 1
      && (forall k :: k in r.pages && k !in pages && k != domain ==>
            r.pages[k] == Downloaded(env.fetch, k) && CouldBeCrawled(env.parseUri, k, domain))
  {
    var first := Read(pages, domain, env.fetch);
    var links := PageLinks(env, first.body, domain, domain);
    PageLinksClassified(env, first.body, domain, domain);
    ExtractorFollowable(env, domain);
    if domain !in pages {
      ReadMiss(pages, domain, env.fetch);
    }
    WithLinksGrows([root], 0, links, env.encode);
    var start := State(first.pages, WithLinks([root], 0, links, env.encode));
    CrawlFromReadsOnly(env, ExtractorFor(env, domain), domain, max, links, 0, 0, domain, start, OnDomain(env, domain));
    var r := CrawlFrom(env, ExtractorFor(env, domain), domain, max, links, 0, 0, domain, start);
    PagesBeyondFirst(env, domain, pages, first.pages, r.pages);
  }

  /** Pages the walk added after the domain page was read were downloaded, and are on the crawl domain. */
  lemma PagesBeyondFirst(env: Env, domain: string, pages: map<string, string>, firstPages: map<string, string>, rPages: map<string, string>)
    requires forall k :: k in firstPages ==> k in pages || k == domain
    requires NewPagesDownloaded(env, firstPages, rPages)
    requires NewPagesSatisfy(OnDomain(env, domain), firstPages, rPages)
    ensures forall k :: k in rPages && k !in pages && k != domain ==>
      rPages[k] == Downloaded(env.fetch, k) && CouldBeCrawled(env.parseUri, k, domain)
  {
    forall k | k in rPages && k !in pages && k != domain
      ensures rPages[k] == Downloaded(env.fetch, k) && CouldBeCrawled(env.parseUri, k, domain)
    {
      assert k !in firstPages;
      assert OnDomain(env, domain)(k);
    }
  }

  /** The sitemap of a crawl starts with the domain page's links in the shape `GeneratePageLinksAsXML` gives them. */
  lemma CrawlTreeStartsWithDomainLinks(env: Env, domain: string, pages: map<string, string>, max: int)
    ensures var links := PageLinks(env, Read(pages, domain, env.fetch).body, domain, domain);
      var r := CrawlResult(env, domain, pages, max);
      && |r.nodes| >= 1 + 2 * |links|
      && r.nodes[0].tag == "SITEMAP"
      && CategoryIndices(1, |links|) <= r.nodes[0].children
      && forall i :: 0 <= i < 1 + 2 * |links| ==>
           r.nodes[i].tag == WithLinks([root], 0, links, env.encode)[i].tag
           && r.nodes[i].text == WithLinks([root], 0, links, env.encode)[i].text
  {
    var links := PageLinks(env, Read(pages, domain, env.fetch).body, domain, domain);
    WithLinksShape([root], 0, links, env.encode);
    WithLinksGrows([root], 0, links, env.encode);
  }

  /**
   * The walk does go past the domain page: when the first link listed on it is
   * crawlable and the budget is not spent, that link's page is in the final
   * dictionary, downloaded unless it was cached already. This needs the encoding
   * of links to be injective, so that the lookup finds the link's own element.
   */
  lemma CrawlReadsFirstLink(env: Env, domain: string, pages: map<string, string>, max: int)
    requires forall a, b :: env.encode(a) == env.encode(b) ==> a == b
    requires var first := Read(pages, domain, env.fetch);
      var links := PageLinks(env, first.body, domain, domain);
      |links| > 0 && links[0].canBeCrawled && |first.pages| < max
    ensures var first := Read(pages, domain, env.fetch);
      var l := PageLinks(env, first.body, domain, domain)[0].link;
      var r := CrawlResult(env, domain, pages, max);
      && l in r.pages
      && (l !in first.pages ==> r.pages[l] == Downloaded(env.fetch, l))
  {
    var first := Read(pages, domain, env.fetch);
    var links := PageLinks(env, first.body, domain, domain);
    PageLinksShape(env, first.body, domain, domain);
    WalkReadsFirstLink(env, ExtractorFor(env, domain), domain, max, links, first.pages);
  }

  /** The walk under `SITEMAP` over distinct links visits the first one while the budget lasts. */
  lemma WalkReadsFirstLink(env: Env, extract: (string, string) -> seq<PageLink>, domain: string, max: int,
                           links: seq<PageLink>, firstPages: map<string, string>)
    requires forall a, b :: env.encode(a) == env.encode(b) ==> a == b
    requires NoDuplicateLinks(links) && |links| > 0 && links[0].canBeCrawled && |firstPages| < max
    ensures WellFormed(WithLinks([root], 0, links, env.encode))
    ensures var l := links[0].link;
      var r := CrawlFrom(env, extract, domain, max, links, 0, 0, domain, State(firstPages, WithLinks([root], 0, links, env.encode)));
      && l in r.pages
      && (l !in firstPages ==> r.pages[l] == Downloaded(env.fetch, l))
  {
    WithLinksGrows([root], 0, links, env.encode);
    FindAppendedLink([root], 0, links, env.encode, 0);
    var start := State(firstPages, WithLinks([root], 0, links, env.encode));
    CrawlFromStep(env, extract, domain, max, links, 0, 0, domain, start);
    var next := Visit(env, extract, domain, max, links[0], 0, domain, start);
    if links[0].link !in firstPages {
      VisitFollowsNew(env, extract, domain, max, links[0], 0, domain, start);
    }
  }

  /** When the budget is already spent after the domain page, the sitemap lists only the domain page's links. */
  lemma FirstLevelOnly(env: Env, domain: string, pages: map<string, string>, max: int)
    requires max <= |Read(pages, domain, env.fetch).pages|
    ensures var first := Read(pages, domain, env.fetch);
      CrawlResult(env, domain, pages, max)
        == State(first.pages, WithLinks([root], 0, PageLinks(env, first.body, domain, domain), env.encode))
  {
    var first := Read(pages, domain, env.fetch);
    var links := PageLinks(env, first.body, domain, domain);
    WithLinksGrows([root], 0, links, env.encode);
    CrawlFromExhausted(env, ExtractorFor(env, domain), domain, max, links, 0, 0, domain, State(first.pages, WithLinks([root], 0, links, env.encode)));
  }

  // ---------------------------------------------------------------- the methods

  /** `CrawlRecursively`; `None` is the null list it ignores. */
  method CrawlRecursively(env: Env, pageLinks: Option<seq<PageLink>>, tree: Sitemap, parent: nat, url: string, domain: string,
                          processedLinks: FetchCache, max: int)
    requires tree.Valid() && parent < |tree.nodes|
    modifies tree, processedLinks
    ensures tree.Valid()
    ensures Extends(old(processedLinks.pages), processedLinks.pages)
    ensures |processedLinks.pages| <= Ceiling(|old(processedLinks.pages)|, max)
    ensures pageLinks.None? ==> tree.nodes == old(tree.nodes) && processedLinks.pages == old(processedLinks.pages)
    ensures pageLinks.Some? ==>
      State(processedLinks.pages, tree.nodes)
        == CrawlFrom(env, ExtractorFor(env, domain), domain, max, pageLinks.value, 0, parent, url,
                     State(old(processedLinks.pages), old(tree.nodes)))
    decreases Budget(|processedLinks.pages|, max), 2
  {
    if pageLinks.None? {
      return;
    }
    var links := pageLinks.value;
    ghost var extract := ExtractorFor(env, domain);
    var i := 0;
    while i < |links|
      invariant 0 <= i <= |links|
      invariant tree.Valid() && parent < |tree.nodes|
      invariant |processedLinks.pages| >= |old(processedLinks.pages)|
      invariant CrawlFrom(env, extract, domain, max, links, i, parent, url, State(processedLinks.pages, tree.nodes))
        == CrawlFrom(env, extract, domain, max, links, 0, parent, url, State(old(processedLinks.pages), old(tree.nodes)))
    {
      ghost var before := State(processedLinks.pages, tree.nodes);
      CrawlFromStep(env, extract, domain, max, links, i, parent, url, before);
      VisitLink(env, links[i], parent, url, domain, tree, processedLinks, max);
      i := i + 1;
    }
  }

  /** The body of the `foreach` in `CrawlRecursively`, for one link listed under `parent`. */
  method VisitLink(env: Env, pageLink: PageLink, parent: nat, url: string, domain: string, tree: Sitemap,
                   processedLinks: FetchCache, max: int)
    requires tree.Valid() && parent < |tree.nodes|
    modifies tree, processedLinks
    ensures tree.Valid()
    ensures State(processedLinks.pages, tree.nodes)
      == Visit(env, ExtractorFor(env, domain), domain, max, pageLink, parent, url, State(old(processedLinks.pages), old(tree.nodes)))
    decreases Budget(|processedLinks.pages|, max), 1
  {
    if |processedLinks.pages| < max && pageLink.canBeCrawled {
      var thisNode := FindChild(tree.nodes, parent, env.encode(pageLink.link));
      if thisNode.Some? {
        if pageLink.link !in processedLinks.pages {
          FollowNewLink(env, pageLink.link, thisNode.value, url, domain, tree, processedLinks, max);
        } else {
          RelistReadLink(env, pageLink.link, thisNode.value, url, domain, tree, processedLinks);
        }
      }
    }
  }

  /** The branch of `CrawlRecursively` for a crawlable link that was not read before. */
  method FollowNewLink(env: Env, link: string, thisNode: nat, url: string, domain: string, tree: Sitemap,
                       processedLinks: FetchCache, max: int)
    requires tree.Valid() && thisNode < |tree.nodes|
    requires |processedLinks.pages| < max && link !in processedLinks.pages
    modifies tree, processedLinks
    ensures tree.Valid()
    ensures State(processedLinks.pages, tree.nodes)
      == Follow(env, ExtractorFor(env, domain), domain, max, link, thisNode, url, State(old(processedLinks.pages), old(tree.nodes)))
    decreases Budget(|processedLinks.pages|, max), 0
  {
    var pageData := processedLinks.ReadPage(link, env.fetch);
    var thisPageLinks := GetPageLinks(env, pageData, url, domain);
    assert thisPageLinks == ExtractorFor(env, domain)(pageData, url);
    tree.GeneratePageLinksAsXML(Some(thisPageLinks), thisNode, env.encode);
    CrawlRecursively(env, Some(thisPageLinks), tree, thisNode, link, domain, processedLinks, max);
  }

  /** The branch of `CrawlRecursively` for a crawlable link that was read before: its stored body is listed again. */
  method RelistReadLink(env: Env, link: string, thisNode: nat, url: string, domain: string, tree: Sitemap,
                        processedLinks: FetchCache)
    requires tree.Valid() && thisNode < |tree.nodes| && link in processedLinks.pages
    modifies tree
    ensures tree.Valid()
    ensures State(processedLinks.pages, tree.nodes)
      == Relist(env, ExtractorFor(env, domain), link, thisNode, url, State(processedLinks.pages, old(tree.nodes)))
  {
    var pageData := processedLinks.pages[link];
    var thisPageLinks := GetPageLinks(env, pageData, url, domain);
    assert thisPageLinks == ExtractorFor(env, domain)(pageData, url);
    tree.GeneratePageLinksAsXML(Some(thisPageLinks), thisNode, env.encode);
  }

  /** `Crawl(domain, processedLinks, maxIndexedPageSize)`. */
  method Crawl(env: Env, domain: string, processedLinks: FetchCache, max: int) returns (xmlOutput: Sitemap)
    modifies processedLinks
    ensures fresh(xmlOutput)
    ensures State(processedLinks.pages, xmlOutput.nodes) == CrawlResult(env, domain, old(processedLinks.pages), max)
  {
    xmlOutput := new Sitemap();
    var pageData := processedLinks.ReadPage(domain, env.fetch);
    var pageLinks := GetPageLinks(env, pageData, domain, domain);
    xmlOutput.GeneratePageLinksAsXML(Some(pageLinks), 0, env.encode);
    CrawlRecursively(env, Some(pageLinks), xmlOutput, 0, domain, domain, processedLinks, max);
  }
}
