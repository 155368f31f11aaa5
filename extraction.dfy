/**
 * Link extraction: the XPath strategy over the page loaded as XML, the regex
 * strategy over the raw markup, and `GetPageLinks`, which falls back from the
 * first to the second whenever the first throws.
 */
module Extraction {
  import opened Wrappers
  import opened Text
  import opened Environment
  import opened Urls
  import opened Links
  import StyleQuotes

  datatype Strategy = XPath | Regex

  /** The arguments every entry of one page is resolved against. */
  datatype Context = Context(url: string, baseRef: string, domain: string)

  /** Categories whose entries are dropped when they point back to the page itself. */
  predicate DropsSelfLinks(t: MatchType) {
    t == URL || t == AREA || t == IMAGE
  }

  /** Categories whose entries are checked against the crawl domain; all others are never followed. */
  predicate MayBeFollowed(t: MatchType) {
    t == URL || t == AREA
  }

  /**
   * The reference a strategy hands to `ExpandLink` for one raw value, or `None`
   * when the value is skipped before expansion. The XPath strategy trims every
   * value and reads the quoted part of a trimmed `style`; the regex strategy skips
   * empty captures and trims all but the `url(...)` captures.
   */
  function Reference(s: Strategy, t: MatchType, raw: string): (r: Option<string>)
    ensures s == XPath ==> r.Some?
    ensures s == Regex ==> (r.None? <==> raw == [])
    ensures r.Some? && t != CSSBACKGROUND ==> r.value == Trim(raw)
    ensures s == XPath && t == CSSBACKGROUND ==> r == Some(StyleQuotes.StyleUrl(Trim(raw)))
    ensures s == Regex && t == CSSBACKGROUND && raw != [] ==> r == Some(raw)
  {
    match s
    case XPath => Some(if t == CSSBACKGROUND then StyleQuotes.StyleUrl(Trim(raw)) else Trim(raw))
    case Regex => if raw == [] then None else Some(if t == CSSBACKGROUND then raw else Trim(raw))
  }

  /** `CanBeCrawled` of a new entry: anchors that are not bookmarks and areas on the crawl domain. */
  function Crawlable(env: Env, t: MatchType, href: string, link: string, domain: string): bool {
    match t
    case URL => !StartsWith(href, "#") && CouldBeCrawled(env.parseUri, link, domain)
    case AREA => CouldBeCrawled(env.parseUri, link, domain)
    case _ => false
  }

  /** The link a reference resolves to on the page of context `c`. */
  function Resolved(env: Env, c: Context, href: string): string {
    ExpandLink(env.hostLike, href, c.url, c.baseRef, c.domain)
  }

  /**
   * A resolved link survives its iteration: the XPath strategy skips an empty link,
   * and anchors, areas and images skip a link back to the page itself.
   */
  predicate Kept(env: Env, s: Strategy, c: Context, t: MatchType, link: string) {
    !(s == XPath && link == []) && !(DropsSelfLinks(t) && SameAsPageUrl(env.parseUri, link, c.url))
  }

  /** The entries (none or one) one raw value contributes, as one iteration of a category loop. */
  function Entry(env: Env, s: Strategy, c: Context, t: MatchType, raw: string): (r: seq<PageLink>)
    ensures |r| <= 1
    ensures forall e :: e in r ==> e.matchType == t && Classified(env, s, c, e)
  {
    var ref := Reference(s, t, raw);
    if ref.None? then []
    else
      var link := Resolved(env, c, ref.value);
      if !Kept(env, s, c, t, link) then []
      else [PageLink(link, t, Crawlable(env, t, ref.value, link, c.domain))]
  }

  /**
   * A raw value is listed exactly when its reference is handed on and the resolved
   * link is kept, and then as that link, with the loop's category and the
   * crawlability its iteration computes.
   */
  lemma EntryListed(env: Env, s: Strategy, c: Context, t: MatchType, raw: string)
    ensures Entry(env, s, c, t, raw) != [] <==>
      Reference(s, t, raw).Some? && Kept(env, s, c, t, Resolved(env, c, Reference(s, t, raw).value))
    ensures Entry(env, s, c, t, raw) != [] ==>
      var href := Reference(s, t, raw).value;
      var link := Resolved(env, c, href);
      Entry(env, s, c, t, raw) == [PageLink(link, t, Crawlable(env, t, href, link, c.domain))]
  {
  }

  /** The entries of one category loop, in the order of its raw values. */
  function CategoryLinks(env: Env, s: Strategy, c: Context, t: MatchType, raws: seq<string>): (r: seq<PageLink>)
    ensures |r| <= |raws|
    ensures forall k :: 0 <= k < |r| ==> r[k].matchType == t
    decreases |raws|
  {
    if raws == [] then []
    else CategoryLinks(env, s, c, t, raws[..|raws| - 1]) + Entry(env, s, c, t, raws[|raws| - 1])
  }

  /** Each entry of a category loop is classified as its iteration decided. */
  lemma {:induction false} CategoryLinksClassified(env: Env, s: Strategy, c: Context, t: MatchType, raws: seq<string>)
    ensures forall e :: e in CategoryLinks(env, s, c, t, raws) ==> Classified(env, s, c, e)
    decreases |raws|
  {
    if raws != [] {
      CategoryLinksClassified(env, s, c, t, raws[..|raws| - 1]);
    }
  }

  /** A raw value whose reference is handed on and whose link is kept is listed by its category loop. */
  lemma CategoryLinksListed(env: Env, s: Strategy, c: Context, t: MatchType, raws: seq<string>, i: nat)
    requires i < |raws| && Reference(s, t, raws[i]).Some?
    requires Kept(env, s, c, t, Resolved(env, c, Reference(s, t, raws[i]).value))
    ensures var href := Reference(s, t, raws[i]).value;
      var link := Resolved(env, c, href);
      PageLink(link, t, Crawlable(env, t, href, link, c.domain)) in CategoryLinks(env, s, c, t, raws)
  {
    EntryListed(env, s, c, t, raws[i]);
    CategoryLinksComplete(env, s, c, t, raws, i);
  }

  /** All entries before deduplication: the seven category loops in extraction order. */
  function RawLinks(env: Env, s: Strategy, c: Context, caps: Captures): seq<PageLink> {
    CategoryLinks(env, s, c, URL, caps.a)
    + CategoryLinks(env, s, c, AREA, caps.area)
    + CategoryLinks(env, s, c, IMAGE, caps.img)
    + CategoryLinks(env, s, c, MEDIA, caps.source)
    + CategoryLinks(env, s, c, SCRIPT, caps.script)
    + CategoryLinks(env, s, c, CSSLINK, caps.link)
    + CategoryLinks(env, s, c, CSSBACKGROUND, caps.css)
  }

  /** The raw values of category `t`, as its loop reads them. */
  function Values(caps: Captures, t: MatchType): seq<string> {
    match t
    case URL => caps.a
    case AREA => caps.area
    case IMAGE => caps.img
    case MEDIA => caps.source
    case SCRIPT => caps.script
    case CSSLINK => caps.link
    case CSSBACKGROUND => caps.css
  }

  /** An entry of a list puts its link in the list's link set. */
  lemma InLinkSet(r: seq<PageLink>, e: PageLink)
    requires e in r
    ensures e.link in LinkSet(r)
  {
    var k :| 0 <= k < |r| && r[k] == e;
    assert r[k].link in LinkSet(r);
  }

  /** Every raw value of any category whose link is kept reaches the list before deduplication. */
  lemma RawLinksListed(env: Env, s: Strategy, c: Context, caps: Captures, t: MatchType, i: nat)
    requires i < |Values(caps, t)| && Reference(s, t, Values(caps, t)[i]).Some?
    requires Kept(env, s, c, t, Resolved(env, c, Reference(s, t, Values(caps, t)[i]).value))
    ensures Resolved(env, c, Reference(s, t, Values(caps, t)[i]).value) in LinkSet(RawLinks(env, s, c, caps))
  {
    var raws := Values(caps, t);
    var href := Reference(s, t, raws[i]).value;
    var link := Resolved(env, c, href);
    var e := PageLink(link, t, Crawlable(env, t, href, link, c.domain));
    CategoryLinksListed(env, s, c, t, raws, i);
    var u := CategoryLinks(env, s, c, URL, caps.a);
    var ar := CategoryLinks(env, s, c, AREA, caps.area);
    var im := CategoryLinks(env, s, c, IMAGE, caps.img);
    var me := CategoryLinks(env, s, c, MEDIA, caps.source);
    var sc := CategoryLinks(env, s, c, SCRIPT, caps.script);
    var cl := CategoryLinks(env, s, c, CSSLINK, caps.link);
    var cb := CategoryLinks(env, s, c, CSSBACKGROUND, caps.css);
    assert RawLinks(env, s, c, caps) == u + ar + im + me + sc + cl + cb;
    assert e in RawLinks(env, s, c, caps);
    InLinkSet(RawLinks(env, s, c, caps), e);
  }

  /** A value the regex strategy discards: it starts (case-sensitively) with `data:` or `javascript:`. */
  predicate ScriptScheme(v: string) {
    StartsWith(v, "data:") || StartsWith(v, "javascript:")
  }

  /** The captures a regex scan keeps: those without a `data:` or `javascript:` scheme, in order. */
  function WithoutScriptSchemes(values: seq<string>): (r: seq<string>)
    ensures |r| <= |values|
    decreases |values|
  {
    if values == [] then []
    else
      var init := WithoutScriptSchemes(values[..|values| - 1]);
      var last := values[|values| - 1];
      if ScriptScheme(last) then init else init + [last]
  }

  /** The filter keeps only captures without a script scheme, each no more often than it occurs. */
  lemma {:induction false} WithoutScriptSchemesSound(values: seq<string>)
    ensures multiset(WithoutScriptSchemes(values)) <= multiset(values)
    ensures forall v :: v in WithoutScriptSchemes(values) ==> !ScriptScheme(v)
    decreases |values|
  {
    if values != [] {
      var front := values[..|values| - 1];
      var last := values[|values| - 1];
      WithoutScriptSchemesSound(front);
      assert values == front + [last];
    }
  }

  /** The filter keeps every capture without a script scheme. */
  lemma {:induction false} WithoutScriptSchemesComplete(values: seq<string>, i: nat)
    requires i < |values| && !ScriptScheme(values[i])
    ensures values[i] in WithoutScriptSchemes(values)
    decreases |values|
  {
    var front := values[..|values| - 1];
    if i < |front| {
      assert front[i] == values[i];
      WithoutScriptSchemesComplete(front, i);
    }
  }

  /**
   * The scheme filter works value by value: it distributes over concatenation, so
   * it keeps the order and the multiplicity of the captures it keeps.
   */
  lemma {:induction false} WithoutScriptSchemesConcat(a: seq<string>, b: seq<string>)
    ensures WithoutScriptSchemes(a + b) == WithoutScriptSchemes(a) + WithoutScriptSchemes(b)
    decreases |b|
  {
    if b == [] {
      assert a + b == a;
    } else {
      var c := a + b;
      var init := b[..|b| - 1];
      var last := b[|b| - 1];
      assert c[..|c| - 1] == a + init;
      assert c[|c| - 1] == last;
      WithoutScriptSchemesConcat(a, init);
      var tail := if ScriptScheme(last) then [] else [last];
      assert WithoutScriptSchemes(c) == WithoutScriptSchemes(a + init) + tail;
      assert WithoutScriptSchemes(b) == WithoutScriptSchemes(init) + tail;
    }
  }

  /** A single capture is kept exactly when it has no script scheme. */
  lemma WithoutScriptSchemesOne(v: string)
    ensures WithoutScriptSchemes([v]) == if ScriptScheme(v) then [] else [v]
  {
    assert [v][..0] == [];
  }

  /** The regex strategy's seven lists: the scheme filter applies to all but images and `url(...)` captures. */
  function RegexCaptures(scan: RegexScan): Captures {
    var caps := scan.caps;
    Captures(
      WithoutScriptSchemes(caps.a),
      WithoutScriptSchemes(caps.area),
      caps.img,
      WithoutScriptSchemes(caps.source),
      WithoutScriptSchemes(caps.script),
      WithoutScriptSchemes(caps.link),
      caps.css)
  }

  /** The regex strategy's base reference: the first `<base href>` capture, if any. */
  function RegexBase(scan: RegexScan): string {
    if |scan.bases| > 0 then scan.bases[0] else ""
  }

  /** The markup the XML parser sees: lower-cased, with `cdata` restored to `CDATA`. */
  function LowerPage(page: string): string {
    ReplaceAll(Lower(page), "cdata", "CDATA")
  }

  /**
   * The XPath strategy, or `None` when it throws: when the markup is not XML, and
   * when the page has a `<base href>` but no `base/@ref` attribute, since the base
   * reference is read from `@ref` once `@href` is found.
   */
  function XPathLinks(env: Env, page: string, url: string, domain: string): Option<seq<PageLink>> {
    var parsed := env.parseXml(LowerPage(page));
    if parsed.None? then None
    else
      var doc := parsed.value;
      if doc.hasBaseHref && doc.baseRefAttr.None? then None
      else
        var baseRef := if doc.hasBaseHref then doc.baseRefAttr.value else "";
        Some(DistinctByLink(RawLinks(env, XPath, Context(url, baseRef, domain), doc.caps)))
  }

  /** The regex strategy, which cannot fail. */
  function RegexLinks(env: Env, page: string, url: string, domain: string): seq<PageLink> {
    var scan := env.scanRegex(page);
    DistinctByLink(RawLinks(env, Regex, Context(url, RegexBase(scan), domain), RegexCaptures(scan)))
  }

  /** `GetPageLinks`: the XPath result, or the regex result when the XPath strategy throws. */
  function PageLinks(env: Env, page: string, url: string, domain: string): seq<PageLink> {
    var x := XPathLinks(env, page, url, domain);
    if x.Some? then x.value else RegexLinks(env, page, url, domain)
  }

  // ---------------------------------------------------------------- properties

  /** An anchor is crawlable exactly when its reference is no bookmark and its link is on the domain. */
  lemma AnchorCrawlable(env: Env, s: Strategy, c: Context, raw: string)
    requires Reference(s, URL, raw).Some?
    ensures forall e :: e in Entry(env, s, c, URL, raw) ==>
      (e.canBeCrawled <==>
        !StartsWith(Reference(s, URL, raw).value, "#") && CouldBeCrawled(env.parseUri, e.link, c.domain))
  {
  }

  /** Whatever the iteration for a raw value adds is in the category's list. */
  lemma {:induction false} CategoryLinksComplete(env: Env, s: Strategy, c: Context, t: MatchType, raws: seq<string>, i: nat)
    requires i < |raws|
    ensures forall e :: e in Entry(env, s, c, t, raws[i]) ==> e in CategoryLinks(env, s, c, t, raws)
    decreases |raws|
  {
    var init := raws[..|raws| - 1];
    assert CategoryLinks(env, s, c, t, raws) == CategoryLinks(env, s, c, t, init) + Entry(env, s, c, t, raws[|raws| - 1]);
    if i < |raws| - 1 {
      assert init[i] == raws[i];
      CategoryLinksComplete(env, s, c, t, init, i);
    }
  }

  /** Every entry of the run has category `t`. */
  predicate AllOf(r: seq<PageLink>, t: MatchType) {
    forall k :: 0 <= k < |r| ==> r[k].matchType == t
  }

  /** No entry ranks after category `t`. */
  predicate RanksUpTo(r: seq<PageLink>, t: MatchType) {
    forall k :: 0 <= k < |r| ==> Rank(r[k].matchType) <= Rank(t)
  }

  /** Appending a run of a later category keeps a list in category order. */
  lemma AppendRun(a: seq<PageLink>, b: seq<PageLink>, t: MatchType, u: MatchType)
    requires CategoryOrdered(a) && RanksUpTo(a, t) && AllOf(b, u) && Rank(t) <= Rank(u)
    ensures CategoryOrdered(a + b) && RanksUpTo(a + b, u)
  {
  }

  /** Seven runs, one per category in extraction order, concatenate to a category-ordered list. */
  lemma SevenRunsOrdered(u: seq<PageLink>, ar: seq<PageLink>, im: seq<PageLink>, me: seq<PageLink>,
                         sc: seq<PageLink>, cl: seq<PageLink>, cb: seq<PageLink>)
    requires AllOf(u, URL) && AllOf(ar, AREA) && AllOf(im, IMAGE) && AllOf(me, MEDIA)
    requires AllOf(sc, SCRIPT) && AllOf(cl, CSSLINK) && AllOf(cb, CSSBACKGROUND)
    ensures CategoryOrdered(u + ar + im + me + sc + cl + cb)
  {
    AppendRun([], u, URL, URL);
    assert [] + u == u;
    AppendRun(u, ar, URL, AREA);
    AppendRun(u + ar, im, AREA, IMAGE);
    AppendRun(u + ar + im, me, IMAGE, MEDIA);
    AppendRun(u + ar + im + me, sc, MEDIA, SCRIPT);
    AppendRun(u + ar + im + me + sc, cl, SCRIPT, CSSLINK);
    AppendRun(u + ar + im + me + sc + cl, cb, CSSLINK, CSSBACKGROUND);
  }

  /** The seven loops run in extraction order, so the list before deduplication is category-ordered. */
  lemma RawLinksOrdered(env: Env, s: Strategy, c: Context, caps: Captures)
    ensures CategoryOrdered(RawLinks(env, s, c, caps))
  {
    SevenRunsOrdered(
      CategoryLinks(env, s, c, URL, caps.a),
      CategoryLinks(env, s, c, AREA, caps.area),
      CategoryLinks(env, s, c, IMAGE, caps.img),
      CategoryLinks(env, s, c, MEDIA, caps.source),
      CategoryLinks(env, s, c, SCRIPT, caps.script),
      CategoryLinks(env, s, c, CSSLINK, caps.link),
      CategoryLinks(env, s, c, CSSBACKGROUND, caps.css));
  }

  /** What every entry before deduplication satisfies, whichever loop added it. */
  predicate Classified(env: Env, s: Strategy, c: Context, e: PageLink) {
    && (e.canBeCrawled ==> MayBeFollowed(e.matchType) && CouldBeCrawled(env.parseUri, e.link, c.domain))
    && (DropsSelfLinks(e.matchType) ==> !SameAsPageUrl(env.parseUri, e.link, c.url))
    && (s == XPath ==> e.link != [])
  }

  lemma RawLinksClassified(env: Env, s: Strategy, c: Context, caps: Captures)
    ensures forall e :: e in RawLinks(env, s, c, caps) ==> Classified(env, s, c, e)
  {
    var u := CategoryLinks(env, s, c, URL, caps.a);
    var ar := CategoryLinks(env, s, c, AREA, caps.area);
    var im := CategoryLinks(env, s, c, IMAGE, caps.img);
    var me := CategoryLinks(env, s, c, MEDIA, caps.source);
    var sc := CategoryLinks(env, s, c, SCRIPT, caps.script);
    var cl := CategoryLinks(env, s, c, CSSLINK, caps.link);
    var cb := CategoryLinks(env, s, c, CSSBACKGROUND, caps.css);
    CategoryLinksClassified(env, s, c, URL, caps.a);
    CategoryLinksClassified(env, s, c, AREA, caps.area);
    CategoryLinksClassified(env, s, c, IMAGE, caps.img);
    CategoryLinksClassified(env, s, c, MEDIA, caps.source);
    CategoryLinksClassified(env, s, c, SCRIPT, caps.script);
    CategoryLinksClassified(env, s, c, CSSLINK, caps.link);
    CategoryLinksClassified(env, s, c, CSSBACKGROUND, caps.css);
    assert RawLinks(env, s, c, caps) == u + ar + im + me + sc + cl + cb;
  }

  /** The context a successful XPath run resolves against. */
  function XPathContext(doc: XmlDoc, url: string, domain: string): Context
    requires !(doc.hasBaseHref && doc.baseRefAttr.None?)
  {
    Context(url, if doc.hasBaseHref then doc.baseRefAttr.value else "", domain)
  }

  /** The context the regex strategy resolves against. */
  function RegexContext(scan: RegexScan, url: string, domain: string): Context {
    Context(url, RegexBase(scan), domain)
  }

  /**
   * `GetPageLinks` returns the list of one strategy, deduplicated: no link twice,
   * every extracted link once, and the categories in extraction order.
   */
  lemma PageLinksShape(env: Env, page: string, url: string, domain: string)
    ensures NoDuplicateLinks(PageLinks(env, page, url, domain))
    ensures CategoryOrdered(PageLinks(env, page, url, domain))
    ensures XPathLinks(env, page, url, domain).Some? ==>
      var doc := env.parseXml(LowerPage(page)).value;
      LinkSet(PageLinks(env, page, url, domain)) == LinkSet(RawLinks(env, XPath, XPathContext(doc, url, domain), doc.caps))
    ensures XPathLinks(env, page, url, domain).None? ==>
      var scan := env.scanRegex(page);
      LinkSet(PageLinks(env, page, url, domain)) == LinkSet(RawLinks(env, Regex, RegexContext(scan, url, domain), RegexCaptures(scan)))
  {
    var parsed := env.parseXml(LowerPage(page));
    if XPathLinks(env, page, url, domain).Some? {
      var doc := parsed.value;
      RawLinksOrdered(env, XPath, XPathContext(doc, url, domain), doc.caps);
      DistinctKeepsOrder(RawLinks(env, XPath, XPathContext(doc, url, domain), doc.caps));
    } else {
      var scan := env.scanRegex(page);
      RawLinksOrdered(env, Regex, RegexContext(scan, url, domain), RegexCaptures(scan));
      DistinctKeepsOrder(RawLinks(env, Regex, RegexContext(scan, url, domain), RegexCaptures(scan)));
    }
  }

  /**
   * When the XPath strategy succeeds, every value of its node lists whose resolved
   * link is non-empty, and for anchors, areas and images is not the page itself,
   * is listed by `GetPageLinks`.
   */
  lemma XPathListsEvery(env: Env, page: string, url: string, domain: string, t: MatchType, i: nat)
    requires XPathLinks(env, page, url, domain).Some?
    requires var doc := env.parseXml(LowerPage(page)).value;
      i < |Values(doc.caps, t)|
      && Kept(env, XPath, XPathContext(doc, url, domain), t,
              Resolved(env, XPathContext(doc, url, domain), Reference(XPath, t, Values(doc.caps, t)[i]).value))
    ensures var doc := env.parseXml(LowerPage(page)).value;
      Resolved(env, XPathContext(doc, url, domain), Reference(XPath, t, Values(doc.caps, t)[i]).value)
        in LinkSet(PageLinks(env, page, url, domain))
  {
    var doc := env.parseXml(LowerPage(page)).value;
    PageLinksShape(env, page, url, domain);
    RawLinksListed(env, XPath, XPathContext(doc, url, domain), doc.caps, t, i);
  }

  /**
   * When the XPath strategy fails, every non-empty value the regex scans keep whose
   * resolved link is, for anchors, areas and images, not the page itself, is listed
   * by `GetPageLinks`.
   */
  lemma RegexListsEvery(env: Env, page: string, url: string, domain: string, t: MatchType, i: nat)
    requires XPathLinks(env, page, url, domain).None?
    requires var caps := RegexCaptures(env.scanRegex(page));
      i < |Values(caps, t)| && Values(caps, t)[i] != []
      && Kept(env, Regex, RegexContext(env.scanRegex(page), url, domain), t,
              Resolved(env, RegexContext(env.scanRegex(page), url, domain), Reference(Regex, t, Values(caps, t)[i]).value))
    ensures var caps := RegexCaptures(env.scanRegex(page));
      Resolved(env, RegexContext(env.scanRegex(page), url, domain), Reference(Regex, t, Values(caps, t)[i]).value)
        in LinkSet(PageLinks(env, page, url, domain))
  {
    var scan := env.scanRegex(page);
    PageLinksShape(env, page, url, domain);
    RawLinksListed(env, Regex, RegexContext(scan, url, domain), RegexCaptures(scan), t, i);
  }

  /**
   * Classification of the final list: only anchors and areas on the crawl domain are
   * crawlable, and no anchor, area or image points back to the page itself.
   */
  lemma PageLinksClassified(env: Env, page: string, url: string, domain: string)
    ensures forall e :: e in PageLinks(env, page, url, domain) ==>
      (e.canBeCrawled ==> MayBeFollowed(e.matchType) && CouldBeCrawled(env.parseUri, e.link, domain))
      && (DropsSelfLinks(e.matchType) ==> !SameAsPageUrl(env.parseUri, e.link, url))
  {
    var parsed := env.parseXml(LowerPage(page));
    if XPathLinks(env, page, url, domain).Some? {
      var doc := parsed.value;
      RawLinksClassified(env, XPath, XPathContext(doc, url, domain), doc.caps);
    } else {
      var scan := env.scanRegex(page);
      RawLinksClassified(env, Regex, RegexContext(scan, url, domain), RegexCaptures(scan));
    }
  }

  /** The XPath strategy never yields an empty link. */
  lemma XPathLinksNonEmpty(env: Env, page: string, url: string, domain: string)
    requires XPathLinks(env, page, url, domain).Some?
    ensures forall e :: e in XPathLinks(env, page, url, domain).value ==> e.link != []
  {
    var doc := env.parseXml(LowerPage(page)).value;
    RawLinksClassified(env, XPath, XPathContext(doc, url, domain), doc.caps);
  }

  /** A page with `<base href>` but no `base/@ref` always takes the regex route. */
  lemma BaseHrefForcesRegex(env: Env, page: string, url: string, domain: string)
    requires env.parseXml(LowerPage(page)).Some?
    requires env.parseXml(LowerPage(page)).value.hasBaseHref
    requires env.parseXml(LowerPage(page)).value.baseRefAttr.None?
    ensures XPathLinks(env, page, url, domain).None?
    ensures PageLinks(env, page, url, domain) == RegexLinks(env, page, url, domain)
  {
  }

  /** Markup the parser rejects takes the regex route; accepted markup without the quirk does not. */
  lemma FallbackExactlyOnFailure(env: Env, page: string, url: string, domain: string)
    ensures XPathLinks(env, page, url, domain).None? <==>
      (env.parseXml(LowerPage(page)).None?
       || (env.parseXml(LowerPage(page)).value.hasBaseHref && env.parseXml(LowerPage(page)).value.baseRefAttr.None?))
    ensures XPathLinks(env, page, url, domain).Some? ==> PageLinks(env, page, url, domain) == XPathLinks(env, page, url, domain).value
  {
  }

  /** The XPath strategy reads the page lower-cased, so the case of the markup never matters to it. */
  lemma XPathIgnoresPageCase(env: Env, page: string, url: string, domain: string)
    ensures XPathLinks(env, page, url, domain) == XPathLinks(env, Lower(page), url, domain)
  {
    LowerIdempotent(page);
  }

  /** The parser never sees an upper-case letter other than those of `CDATA`. */
  lemma LowerPageSpelling(page: string)
    ensures forall i :: 0 <= i < |LowerPage(page)| && 'A' <= LowerPage(page)[i] <= 'Z' ==> LowerPage(page)[i] in "CDAT"
  {
    LowerPageSpellingFrom(Lower(page));
  }

  lemma {:induction false} LowerPageSpellingFrom(s: string)
    requires forall i :: 0 <= i < |s| ==> !('A' <= s[i] <= 'Z')
    ensures forall i :: 0 <= i < |ReplaceAll(s, "cdata", "CDATA")| && 'A' <= ReplaceAll(s, "cdata", "CDATA")[i] <= 'Z' ==>
      ReplaceAll(s, "cdata", "CDATA")[i] in "CDAT"
    decreases |s|
  {
    if StartsWith(s, "cdata") {
      LowerPageSpellingFrom(s[5..]);
    } else if s != [] {
      LowerPageSpellingFrom(s[1..]);
    }
  }

  // ---------------------------------------------------------------- the loops

  /** One iteration of a category loop: expand the value and add its entry unless it is skipped. */
  method AddEntry(env: Env, s: Strategy, c: Context, t: MatchType, raw: string, acc: seq<PageLink>) returns (out: seq<PageLink>)
    ensures out == acc + Entry(env, s, c, t, raw)
  {
    out := acc;
    EntryListed(env, s, c, t, raw);
    var ref := Reference(s, t, raw);
    if ref.None? {
      return;
    }
    var href := ref.value;
    var link := ExpandLink(env.hostLike, href, c.url, c.baseRef, c.domain);
    if s == XPath && link == [] {
      return;
    }
    var canBeCrawled := Crawlable(env, t, href, link, c.domain);
    if !(DropsSelfLinks(t) && SameAsPageUrl(env.parseUri, link, c.url)) {
      out := out + [PageLink(link, t, canBeCrawled)];
    }
  }

  /** Extending the values by one adds exactly that value's entries. */
  lemma CategoryLinksStep(env: Env, s: Strategy, c: Context, t: MatchType, raws: seq<string>, i: nat)
    requires i < |raws|
    ensures CategoryLinks(env, s, c, t, raws[..i + 1]) == CategoryLinks(env, s, c, t, raws[..i]) + Entry(env, s, c, t, raws[i])
  {
    assert raws[..i + 1][..i] == raws[..i];
  }

  /** One category loop, as the source runs it. */
  method CollectCategory(env: Env, s: Strategy, c: Context, t: MatchType, raws: seq<string>) returns (out: seq<PageLink>)
    ensures out == CategoryLinks(env, s, c, t, raws)
  {
    out := [];
    var i := 0;
    while i < |raws|
      invariant 0 <= i <= |raws|
      invariant out == CategoryLinks(env, s, c, t, raws[..i])
    {
      CategoryLinksStep(env, s, c, t, raws, i);
      out := AddEntry(env, s, c, t, raws[i], out);
      i := i + 1;
    }
    assert raws[..|raws|] == raws;
  }

  /** The seven category loops in extraction order. */
  method CollectAll(env: Env, s: Strategy, c: Context, caps: Captures) returns (out: seq<PageLink>)
    ensures out == RawLinks(env, s, c, caps)
  {
    var u := CollectCategory(env, s, c, URL, caps.a);
    var ar := CollectCategory(env, s, c, AREA, caps.area);
    var im := CollectCategory(env, s, c, IMAGE, caps.img);
    var me := CollectCategory(env, s, c, MEDIA, caps.source);
    var sc := CollectCategory(env, s, c, SCRIPT, caps.script);
    var cl := CollectCategory(env, s, c, CSSLINK, caps.link);
    var cb := CollectCategory(env, s, c, CSSBACKGROUND, caps.css);
    out := u + ar + im + me + sc + cl + cb;
  }

  /** One regex scan loop that keeps the captures without a `data:` or `javascript:` scheme. */
  method KeepNavigable(values: seq<string>) returns (kept: seq<string>)
    ensures kept == WithoutScriptSchemes(values)
  {
    kept := [];
    var i := 0;
    while i < |values|
      invariant 0 <= i <= |values|
      invariant kept == WithoutScriptSchemes(values[..i])
    {
      assert values[..i + 1][..i] == values[..i];
      if !StartsWith(values[i], "data:") && !StartsWith(values[i], "javascript:") {
        kept := kept + [values[i]];
      }
      i := i + 1;
    }
    assert values[..|values|] == values;
  }

  /** `GetPageLinksUsingXPath`; `None` stands for the exception it throws. */
  method GetPageLinksUsingXPath(env: Env, pageData: string, url: string, domain: string) returns (r: Option<seq<PageLink>>)
    ensures r == XPathLinks(env, pageData, url, domain)
  {
    var parsed := env.parseXml(LowerPage(pageData));
    if parsed.None? {
      return None;
    }
    var doc := parsed.value;
    if doc.hasBaseHref && doc.baseRefAttr.None? {
      return None;
    }
    var baseRef := if doc.hasBaseHref then doc.baseRefAttr.value else "";
    var links := CollectAll(env, XPath, Context(url, baseRef, domain), doc.caps);
    var distinct := Distinct(links);
    r := Some(distinct);
  }

  /** `GetPageLinksUsingRegex`. */
  method GetPageLinksUsingRegex(env: Env, pageData: string, url: string, domain: string) returns (r: seq<PageLink>)
    ensures r == RegexLinks(env, pageData, url, domain)
  {
    var scan := env.scanRegex(pageData);
    var hrefsA := KeepNavigable(scan.caps.a);
    var hrefsArea := KeepNavigable(scan.caps.area);
    var refsMedia := KeepNavigable(scan.caps.source);
    var refsScript := KeepNavigable(scan.caps.script);
    var hrefsCssLinkTags := KeepNavigable(scan.caps.link);
    var caps := Captures(hrefsA, hrefsArea, scan.caps.img, refsMedia, refsScript, hrefsCssLinkTags, scan.caps.css);
    var baseRef := "";
    if |scan.bases| > 0 {
      baseRef := scan.bases[0];
    }
    var links := CollectAll(env, Regex, Context(url, baseRef, domain), caps);
    r := Distinct(links);
  }

  /** `GetPageLinks`: the deduplicated, category-ordered list of one strategy. */
  method GetPageLinks(env: Env, pageData: string, url: string, domain: string) returns (r: seq<PageLink>)
    ensures r == PageLinks(env, pageData, url, domain)
    ensures NoDuplicateLinks(r) && CategoryOrdered(r)
  {
    var x := GetPageLinksUsingXPath(env, pageData, url, domain);
    if x.Some? {
      r := x.value;
    } else {
      r := GetPageLinksUsingRegex(env, pageData, url, domain);
    }
    PageLinksShape(env, pageData, url, domain);
  }
}
