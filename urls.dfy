/**
 * Link resolution and the two URL comparisons: `ExpandLink`,
 * `DetermineIfLinkCouldBeCrawled` and `IsLinkTheSameAsPageUrl`.
 */
module Urls {
  import opened Wrappers
  import opened Text
  import opened Environment

  /**
   * `Uri.CheckHostName(s)` returns Dns, IPv4 or IPv6. .NET answers `Unknown` for the
   * empty string, and no host kind accepts a leading '/'; the rest is the foreign test.
   */
  predicate HostLike(hostLike: string -> bool, s: string) {
    s != [] && s[0] != '/' && hostLike(s)
  }

  /** A reference that starts with one '/' but not two: resolved against the host. */
  predicate RootRelative(link: string) {
    StartsWith(link, "/") && !StartsWith(link, "//")
  }

  /** The host links are resolved against: the base reference unless it is blank, else the domain. */
  function ResolutionHost(baseRef: string, domain: string): string {
    if !IsBlank(baseRef) then baseRef else domain
  }

  /** The resolution host with its trailing slashes replaced by exactly one. */
  function HostPrefix(baseRef: string, domain: string): (r: string)
    ensures |r| > 0 && r[|r| - 1] == '/'
    ensures r[..|r| - 1] == TrimEnd(ResolutionHost(baseRef, domain), '/')
  {
    TrimEnd(ResolutionHost(baseRef, domain), '/') + "/"
  }

  /**
   * `ExpandLink`: a bookmark is appended to the page URL; a root-relative reference
   * is joined to the host with one slash; a host-like token is prefixed with the host;
   * anything else is returned as it is.
   */
  function ExpandLink(hostLike: string -> bool, link: string, pageUrl: string, baseRef: string, domain: string): string {
    if StartsWith(Trim(link), "#") then TrimBoth(pageUrl, '/') + "/" + link
    else if RootRelative(link) then HostPrefix(baseRef, domain) + TrimStart(link, '/')
    else if HostLike(hostLike, link) then HostPrefix(baseRef, domain) + link
    else link
  }

  /** Only the empty reference expands to the empty link. */
  lemma ExpandLinkEmpty(hostLike: string -> bool, link: string, pageUrl: string, baseRef: string, domain: string)
    ensures ExpandLink(hostLike, link, pageUrl, baseRef, domain) == [] <==> link == []
  {
    var r := ExpandLink(hostLike, link, pageUrl, baseRef, domain);
    if link == [] {
      assert Trim(link) == [];
    } else if StartsWith(Trim(link), "#") {
      assert |r| >= 1;
    }
  }

  /** A bookmark becomes the page URL (outer slashes trimmed), one slash, and the bookmark itself. */
  lemma ExpandBookmark(hostLike: string -> bool, link: string, pageUrl: string, baseRef: string, domain: string)
    requires StartsWith(Trim(link), "#")
    ensures var r := ExpandLink(hostLike, link, pageUrl, baseRef, domain);
      var page := TrimBoth(pageUrl, '/');
      && r == page + "/" + link
      && (page == [] || (page[0] != '/' && page[|page| - 1] != '/'))
      && ExpandLink(hostLike, link, pageUrl, "", "") == r
  {
    var page := TrimBoth(pageUrl, '/');
    var front := TrimStart(pageUrl, '/');
    assert front == [] || front[0] != '/';
    assert page == front[..|page|];
    if page != [] {
      assert page[0] == front[0];
    }
  }

  /**
   * A root-relative reference is joined to the resolution host with exactly one
   * slash: the host keeps no trailing slash and the reference keeps no leading one.
   */
  lemma ExpandRootRelative(hostLike: string -> bool, link: string, pageUrl: string, baseRef: string, domain: string)
    requires !StartsWith(Trim(link), "#") && RootRelative(link)
    ensures var host := TrimEnd(ResolutionHost(baseRef, domain), '/');
      var rest := TrimStart(link, '/');
      && ExpandLink(hostLike, link, pageUrl, baseRef, domain) == host + "/" + rest
      && (host == [] || host[|host| - 1] != '/')
      && (rest == [] || rest[0] != '/')
      && link == link[..|link| - |rest|] + rest
      && (forall i :: 0 <= i < |link| - |rest| ==> link[i] == '/')
  {
    RootRelativeJoins(hostLike, link, pageUrl, baseRef, domain);
    SlashesSplit(link);
  }

  /** A root-relative reference is the host prefix followed by the reference without its leading slashes. */
  lemma RootRelativeJoins(hostLike: string -> bool, link: string, pageUrl: string, baseRef: string, domain: string)
    requires !StartsWith(Trim(link), "#") && RootRelative(link)
    ensures ExpandLink(hostLike, link, pageUrl, baseRef, domain)
      == TrimEnd(ResolutionHost(baseRef, domain), '/') + "/" + TrimStart(link, '/')
  {
  }

  /** A string is its leading slashes followed by `TrimStart(s, '/')`. */
  lemma SlashesSplit(s: string)
    ensures var rest := TrimStart(s, '/');
      && (rest == [] || rest[0] != '/')
      && s == s[..|s| - |rest|] + rest
      && (forall i :: 0 <= i < |s| - |rest| ==> s[i] == '/')
  {
    var rest := TrimStart(s, '/');
    assert rest == s[|s| - |rest|..];
    assert s == s[..|s| - |rest|] + s[|s| - |rest|..];
  }

  /** A non-blank base reference overrides the domain: the domain then plays no part. */
  lemma BaseRefOverridesDomain(hostLike: string -> bool, link: string, pageUrl: string, baseRef: string, d1: string, d2: string)
    requires !IsBlank(baseRef)
    ensures ExpandLink(hostLike, link, pageUrl, baseRef, d1) == ExpandLink(hostLike, link, pageUrl, baseRef, d2)
  {
  }

  /** A blank base reference resolves exactly as a missing one. */
  lemma BlankBaseRefIsMissing(hostLike: string -> bool, link: string, pageUrl: string, baseRef: string, domain: string)
    requires IsBlank(baseRef)
    ensures ExpandLink(hostLike, link, pageUrl, baseRef, domain) == ExpandLink(hostLike, link, pageUrl, "", domain)
  {
    BlankHostPrefix(baseRef, domain);
    ExpandThroughHostPrefix(hostLike, link, pageUrl, baseRef, domain, "", domain);
  }

  /** The base reference and the domain enter the resolution only through the host prefix. */
  lemma ExpandThroughHostPrefix(hostLike: string -> bool, link: string, pageUrl: string, b1: string, d1: string, b2: string, d2: string)
    requires HostPrefix(b1, d1) == HostPrefix(b2, d2)
    ensures ExpandLink(hostLike, link, pageUrl, b1, d1) == ExpandLink(hostLike, link, pageUrl, b2, d2)
  {
    var p := HostPrefix(b1, d1);
    if StartsWith(Trim(link), "#") {
    } else if RootRelative(link) {
      assert ExpandLink(hostLike, link, pageUrl, b1, d1) == p + TrimStart(link, '/');
      assert ExpandLink(hostLike, link, pageUrl, b2, d2) == p + TrimStart(link, '/');
    } else if HostLike(hostLike, link) {
      assert ExpandLink(hostLike, link, pageUrl, b1, d1) == p + link;
      assert ExpandLink(hostLike, link, pageUrl, b2, d2) == p + link;
    }
  }

  lemma BlankHostPrefix(baseRef: string, domain: string)
    requires IsBlank(baseRef)
    ensures HostPrefix(baseRef, domain) == HostPrefix("", domain)
  {
    assert ResolutionHost(baseRef, domain) == domain;
    assert ResolutionHost("", domain) == domain by { assert IsBlank(""); }
  }

  /** A protocol-relative reference is returned unchanged. */
  lemma ExpandProtocolRelative(hostLike: string -> bool, link: string, pageUrl: string, baseRef: string, domain: string)
    requires StartsWith(link, "//")
    ensures ExpandLink(hostLike, link, pageUrl, baseRef, domain) == link
  {
    var t := DropLeading(link, IsWhiteSpace);
    assert link[0] == '/' && !IsWhiteSpace('/');
    assert t == link;
    var tr := Trim(link);
    assert tr == t[..|tr|];
    assert tr[0] == '/';
  }

  /**
   * Resolving leaves alone every reference that is not a bookmark, not root-relative
   * and not host-like, so a fully qualified link is a fixed point.
   */
  lemma ExpandFixedPoint(hostLike: string -> bool, link: string, pageUrl: string, baseRef: string, domain: string)
    requires !StartsWith(Trim(link), "#") && !RootRelative(link) && !HostLike(hostLike, link)
    ensures ExpandLink(hostLike, link, pageUrl, baseRef, domain) == link
    ensures ExpandLink(hostLike, ExpandLink(hostLike, link, pageUrl, baseRef, domain), pageUrl, baseRef, domain) == link
  {
  }

  /** The link lower-cased, with every "/www." replaced by "/". */
  function WwwStripped(link: string): string {
    ReplaceAll(Lower(link), "/www.", "/")
  }

  /**
   * The comparison form `DetermineIfLinkCouldBeCrawled` gives the link: lower-cased,
   * every "/www." replaced by "/", every "https://" dropped when the link starts
   * with it, and "http://" put in front of what remains once every "http://" is dropped.
   */
  function NormalizeLink(link: string): string {
    SchemeForced(WwwStripped(link))
  }

  /** Drops "https://" everywhere when `l` starts with it, then forces a single leading "http://". */
  function SchemeForced(l: string): string {
    var l2 := if StartsWith(l, "https://") then ReplaceAll(l, "https://", "") else l;
    "http://" + ReplaceAll(l2, "http://", "")
  }

  /** The comparison form of the domain: lower-cased with every "/www." replaced by "/". */
  function NormalizeDomain(domain: string): string {
    ReplaceAll(Lower(domain), "/www.", "/")
  }

  /** Hosts compared after `DnsSafeHost.ToLower()`; a parse failure on either side gives `false`. */
  function SameHost(parseUri: string -> Option<UriParts>, a: string, b: string): bool {
    match (parseUri(a), parseUri(b))
    case (Some(x), Some(y)) => Lower(x.host) == Lower(y.host)
    case _ => false
  }

  /** `DetermineIfLinkCouldBeCrawled`. */
  function CouldBeCrawled(parseUri: string -> Option<UriParts>, link: string, domain: string): bool {
    SameHost(parseUri, NormalizeLink(link), NormalizeDomain(domain))
  }

  /** `IsLinkTheSameAsPageUrl`: same host, ignoring case, and same path and query; fragments are ignored. */
  function SameAsPageUrl(parseUri: string -> Option<UriParts>, link: string, pageUrl: string): bool {
    match (parseUri(link), parseUri(pageUrl))
    case (Some(x), Some(y)) => Lower(x.host) == Lower(y.host) && x.pathAndQuery == y.pathAndQuery
    case _ => false
  }

  /** A domain the URI parser rejects (a schemeless one, say) makes every link uncrawlable. */
  lemma CrawlFailsClosed(parseUri: string -> Option<UriParts>, link: string, domain: string)
    requires parseUri(NormalizeDomain(domain)).None? || parseUri(NormalizeLink(link)).None?
    ensures !CouldBeCrawled(parseUri, link, domain)
  {
  }

  /** Letter case in the link does not matter. */
  lemma CrawlIgnoresCase(parseUri: string -> Option<UriParts>, link: string, domain: string)
    ensures CouldBeCrawled(parseUri, Lower(link), domain) == CouldBeCrawled(parseUri, link, domain)
  {
    LowerIdempotent(link);
  }

  /** "/www." occurs nowhere inside the scheme prefix `pre` when `rest` does not start with "www.". */
  lemma SchemePrefixNoWww(pre: string, rest: string)
    requires pre == "http://" || pre == "https://"
    requires !StartsWith(rest, "www.")
    ensures forall i :: 0 <= i < |pre| ==> !StartsWith(pre[i..] + rest, "/www.")
  {
    forall i | 0 <= i < |pre| ensures !StartsWith(pre[i..] + rest, "/www.") {
      var x := pre[i..] + rest;
      if i < |pre| - 2 {
        assert x[0] == pre[i];
        MismatchAt(x, "/www.", 0);
      } else if i == |pre| - 2 {
        assert x[1] == '/';
        MismatchAt(x, "/www.", 1);
      } else {
        assert x == "/" + rest;
        ConsPrefix('/', rest, "www.");
        assert "/www." == ['/'] + "www.";
      }
    }
  }

  /** The "www." prefix is replaced right after the slashes of the scheme. */
  lemma SchemeWwwPrefix(pre: string, rest: string)
    requires pre == "http:/" || pre == "https:/"
    ensures ReplaceAll(pre + "/www." + rest, "/www.", "/") == pre + "/" + ReplaceAll(rest, "/www.", "/")
  {
    forall i | 0 <= i < |pre| ensures !StartsWith(pre[i..] + ("/www." + rest), "/www.") {
      var x := pre[i..] + ("/www." + rest);
      if i < |pre| - 1 {
        assert x[0] == pre[i];
        MismatchAt(x, "/www.", 0);
      } else {
        assert x[1] == '/';
        MismatchAt(x, "/www.", 1);
      }
    }
    ReplaceAllSkipsPrefix(pre, "/www." + rest, "/www.", "/");
    ReplaceAllAtFront(rest, "/www.", "/");
    assert pre + "/www." + rest == pre + ("/www." + rest);
  }

  /** Stripping "/www." from a scheme form works on the remainder alone. */
  lemma StrippedScheme(pre: string, rest: string)
    requires pre == "http://" || pre == "https://"
    requires Lower(rest) == rest && !StartsWith(rest, "www.")
    ensures WwwStripped(pre + rest) == pre + ReplaceAll(rest, "/www.", "/")
  {
    LowerAppend(pre, rest);
    assert Lower(pre) == pre;
    SchemePrefixNoWww(pre, rest);
    ReplaceAllSkipsPrefix(pre, rest, "/www.", "/");
  }

  /** The same for a scheme form that spells out "www.". */
  lemma StrippedSchemeWww(pre: string, rest: string)
    requires pre == "http://" || pre == "https://"
    requires Lower(rest) == rest
    ensures WwwStripped(pre + "www." + rest) == pre + ReplaceAll(rest, "/www.", "/")
  {
    var short := pre[..|pre| - 1];
    assert short + "/" == pre;
    assert pre + "www." + rest == short + "/www." + rest;
    StrippedWwwAfter(short, rest);
  }

  lemma StrippedWwwAfter(short: string, rest: string)
    requires short == "http:/" || short == "https:/"
    requires Lower(rest) == rest
    ensures WwwStripped(short + "/www." + rest) == short + "/" + ReplaceAll(rest, "/www.", "/")
  {
    var front := short + "/www.";
    assert short + "/www." + rest == front + rest;
    LowerAppend(front, rest);
    LowerUnchanged(front);
    SchemeWwwPrefix(short, rest);
  }

  /** A colon-free form gains "http://". */
  lemma SchemeForcedBare(r: string)
    requires ':' !in r
    ensures SchemeForced(r) == "http://" + r
  {
    MismatchAt(r, "https://", 5);
    ReplaceAllNoOccurrence(r, "http://", "", 4);
  }

  /** An http form before a colon-free remainder keeps its scheme. */
  lemma SchemeForcedHttp(r: string)
    requires ':' !in r
    ensures SchemeForced("http://" + r) == "http://" + r
  {
    var l := "http://" + r;
    MismatchAt(l, "https://", 4);
    ReplaceAllAtFront(r, "http://", "");
    ReplaceAllNoOccurrence(r, "http://", "", 4);
    assert ReplaceAll(l, "http://", "") == r;
  }

  /** An https form before a colon-free remainder has its scheme replaced by http. */
  lemma SchemeForcedHttps(r: string)
    requires ':' !in r
    ensures SchemeForced("https://" + r) == "http://" + r
  {
    var l := "https://" + r;
    assert l[..8] == "https://";
    ReplaceAllAtFront(r, "https://", "");
    ReplaceAllNoOccurrence(r, "https://", "", 5);
    ReplaceAllNoOccurrence(r, "http://", "", 4);
    assert ReplaceAll(l, "https://", "") == r;
  }

  lemma NormalizeSchemeForm(pre: string, rest: string)
    requires pre == "http://" || pre == "https://"
    requires ':' !in rest && Lower(rest) == rest && !StartsWith(rest, "www.")
    ensures NormalizeLink(pre + rest) == "http://" + ReplaceAll(rest, "/www.", "/")
  {
    var r := ReplaceAll(rest, "/www.", "/");
    ReplaceAllKeepsAbsentChar(rest, "/www.", "/", ':');
    StrippedScheme(pre, rest);
    if pre == "http://" { SchemeForcedHttp(r); } else { SchemeForcedHttps(r); }
  }

  lemma NormalizeWwwForm(pre: string, full: string, rest: string)
    requires pre == "http://" || pre == "https://"
    requires full == pre + "www."
    requires ':' !in rest && Lower(rest) == rest
    ensures NormalizeLink(full + rest) == "http://" + ReplaceAll(rest, "/www.", "/")
  {
    var r := ReplaceAll(rest, "/www.", "/");
    ReplaceAllKeepsAbsentChar(rest, "/www.", "/", ':');
    var link := full + rest;
    StrippedSchemeWww(pre, rest);
    assert WwwStripped(link) == pre + r;
    if pre == "http://" { SchemeForcedHttp(r); } else { SchemeForcedHttps(r); }
  }

  /** The five spellings of one address that the crawlability test treats alike. */
  datatype Spelling = Bare | Http | Https | HttpWww | HttpsWww

  function SpellingPrefix(sp: Spelling): string {
    match sp
    case Bare => ""
    case Http => "http://"
    case Https => "https://"
    case HttpWww => "http://" + "www."
    case HttpsWww => "https://" + "www."
  }

  /**
   * The crawlability test ignores the scheme and a leading "www.": for a lower-case
   * remainder without ':' that does not itself start with "www.", the bare remainder
   * and each of its http, https, http-www and https-www spellings normalize alike.
   */
  lemma NormalizeIgnoresSchemeAndWww(sp: Spelling, rest: string)
    requires ':' !in rest && Lower(rest) == rest && !StartsWith(rest, "www.")
    ensures NormalizeLink(SpellingPrefix(sp) + rest) == "http://" + ReplaceAll(rest, "/www.", "/")
  {
    var r := ReplaceAll(rest, "/www.", "/");
    ReplaceAllKeepsAbsentChar(rest, "/www.", "/", ':');
    var pre := SpellingPrefix(sp);
    if sp == Bare {
      assert pre + rest == rest;
      SchemeForcedBare(r);
    } else if sp == Http {
      NormalizeSchemeForm("http://", rest);
    } else if sp == Https {
      NormalizeSchemeForm("https://", rest);
    } else if sp == HttpWww {
      NormalizeWwwForm("http://", "http://" + "www.", rest);
    } else {
      NormalizeWwwForm("https://", "https://" + "www.", rest);
    }
  }

  /** Hence the crawlability verdict is the same for every spelling. */
  lemma CrawlIgnoresSchemeAndWww(parseUri: string -> Option<UriParts>, sp: Spelling, rest: string, domain: string)
    requires ':' !in rest && Lower(rest) == rest && !StartsWith(rest, "www.")
    ensures CouldBeCrawled(parseUri, SpellingPrefix(sp) + rest, domain) == CouldBeCrawled(parseUri, rest, domain)
  {
    NormalizeIgnoresSchemeAndWww(sp, rest);
    NormalizeIgnoresSchemeAndWww(Bare, rest);
    assert "" + rest == rest;
  }

  /** Same-page comparison is symmetric. */
  lemma SameAsPageUrlSymmetric(parseUri: string -> Option<UriParts>, a: string, b: string)
    ensures SameAsPageUrl(parseUri, a, b) == SameAsPageUrl(parseUri, b, a)
  {
  }

  /** Two parsed URLs with the same host (up to case) and the same path and query are the same page, whatever their fragments. */
  lemma SameAsPageUrlIgnoresFragment(parseUri: string -> Option<UriParts>, a: string, b: string)
    requires parseUri(a).Some? && parseUri(b).Some?
    requires Lower(parseUri(a).value.host) == Lower(parseUri(b).value.host)
    requires parseUri(a).value.pathAndQuery == parseUri(b).value.pathAndQuery
    ensures SameAsPageUrl(parseUri, a, b)
  {
  }

  /** A URL the parser rejects is never the same page as anything. */
  lemma SameAsPageUrlFailsClosed(parseUri: string -> Option<UriParts>, a: string, b: string)
    requires parseUri(a).None? || parseUri(b).None?
    ensures !SameAsPageUrl(parseUri, a, b)
  {
  }
}
