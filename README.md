# Single-domain crawler and sitemap builder, modelled in Dafny

The program crawls one web site. Starting from a domain, it works as follows:

- It reads the domain page.
- It extracts the page's links with one of two strategies:
  - an XPath pass over the page loaded as XML;
  - a set of regular-expression scans, used when the XPath pass throws.
- It classifies each link into one of seven categories: `URL`, `AREA`, `IMAGE`, `MEDIA`, `SCRIPT`, `CSSLINK` and `CSSBACKGROUND`.
- It lists the links in an XML sitemap, one category element per link, each holding one `LOC` element.
- It then walks the crawlable links depth-first. Every page is read at most once through a dictionary of read pages (`processedLinks`). The walk stops following links once that dictionary holds `maxIndexedPageSize` entries.

The model covers all of `App/Program.cs` except `Main`. The modules are:

- `Wrappers`: the `Option` type.
- `Text`: the .NET string operations the code uses, written out over `seq<char>`: `StartsWith` (as a plain prefix test), `Trim`, `Trim(c)`/`TrimStart`/`TrimEnd`, ordinal `Replace`, ASCII `ToLower`.
- `Environment`: the foreign collaborators, handed to the model as the fields of an `Env` value:
  - the HTTP download;
  - the XML parser with its nine XPath queries (seven `SelectNodes` and the two `SelectSingleNode` calls on `base`);
  - the regex scans;
  - `new Uri(...)`;
  - `Uri.CheckHostName`;
  - `HttpUtility.HtmlEncode`.
- `Urls`: `ExpandLink`, `DetermineIfLinkCouldBeCrawled` (`CouldBeCrawled`) and `IsLinkTheSameAsPageUrl` (`SameAsPageUrl`).
- `Links`: `MatchType`, `PageLink` and `Distinct()`. `PageLink.Equals` and `GetHashCode` both look at `Link` alone, so `Distinct()` is modelled as deduplication by the `link` field.
- `StyleQuotes`: the two quote patterns the XPath strategy runs on an inline `style` value.
- `Extraction`: both strategies and `GetPageLinks`. Each strategy is a specification function (`XPathLinks`, `RegexLinks`, `PageLinks`) plus a method with the source's loops (`GetPageLinksUsingXPath`, `GetPageLinksUsingRegex`, `GetPageLinks`) proved equal to it.
- `SitemapXml`: the sitemap as an arena of nodes held by the class `Sitemap`. `GeneratePageLinksAsXML` is a method that appends nodes in a loop, proved equal to the function `WithLinks`.
- `PageCache`: `ReadPage` and the dictionary it fills, as the class `FetchCache` with a `map` field. It is proved equal to the function `Read`.
- `Crawler`: `CrawlRecursively` and `Crawl`.
  - The methods mutate the shared `FetchCache` and `Sitemap` objects. The body of the `foreach` is the method `VisitLink`, and its two branches are `FollowNewLink` and `RelistReadLink`.
  - They are proved equal to the specification functions:
    - `Visit`, `Follow` and `Relist` model one iteration of the `foreach`;
    - `CrawlFrom` models the rest of the loop;
    - `CrawlResult` models `Crawl`.
  - The properties are lemmas about those functions: the budget, what gets downloaded, and the shape of the tree.

Behaviour of the code that the model keeps as written:

- **Base-reference quirk.** The XPath strategy tests `//base/@href` but reads the value from `//base/@ref`. So a page with a `<base href>` and no `ref` attribute makes the strategy throw, and the regex strategy takes over (`BaseHrefForcesRegex`).
- **Lower-casing.** The XPath strategy parses the lower-cased page, in which `cdata` is turned back into `CDATA`.
- **Empty links.** The XPath strategy skips an empty expanded link. The regex strategy skips an empty capture before expansion. A capture made of blanks therefore survives in the regex strategy as an empty link.
- **`data:`/`javascript:` filter.** The regex strategy drops captures that start with these schemes for `a`, `area`, `source`, `script` and `link`, but not for `img` and not for `url(...)` captures. The XPath strategy has no such filter.
- **Single-quote pattern.** The fallback pattern for `style` values is `'([^"]*)'`. Its character class excludes the double quote, not the single quote.
- **Parent's URL for child pages.** In `CrawlRecursively`, the links of a newly read page are extracted with the URL of the page that listed it (`url`), not the page's own address. The walk below it runs with the page's own address.
- **Direct children only.** The lookup of a link's element searches only the direct children of the parent element. A link with no such child is not expanded.
- **Cached links.** A link already in the dictionary has its links listed again from the stored body, with no download and no recursion.
- **The domain page.** It is read unconditionally, so it does not count against the budget check.

Further details of the code that the model keeps:

- A bookmark is joined to the page URL trimmed of slashes at both ends (`Trim('/')`), not only of the trailing ones.
- Before the host comparison only the link is given an `http://` scheme; the domain is only lower-cased and has `/www.` replaced.
- The budget bounds the dictionary at `max(|dictionary after the domain page|, maxIndexedPageSize)`.

The test scenarios of `AppTest/ProgramTest.cs` correspond to these lemmas:

- The cache hit (lines 57-62): `PageCache.ReadHit`.
- Link resolution (lines 154-158): `Urls.ExpandBookmark`, `Urls.ExpandRootRelative`, `Urls.ExpandProtocolRelative` and `Urls.ExpandFixedPoint`.
- Crawlability (lines 164-168): `Urls.CrawlFailsClosed` and `Urls.CrawlIgnoresSchemeAndWww`.
- The same-page test (lines 175-179): the `Urls.SameAsPageUrl` lemmas.
- The `LOC` count (line 145): `SitemapXml.WithLinksShape`.

## Model

| member | source | states |
|---|---|---|
| Links.NameInjective | App/Program.cs:39-48 | The element names of the seven categories are distinct, so a sitemap tag identifies its category |
| Links.DistinctByLink | App/Program.cs:263 | The deduplicated list has no two entries with the same link; it has exactly the input's set of links; every entry comes from the input |
| Links.DistinctKeepsFirst | App/Program.cs:263 | The first entry for each link survives deduplication |
| Links.DistinctIsFirstSeen | App/Program.cs:396 | The entry kept for a link is the first input entry with that link (first seen wins, as in `Enumerable.Distinct`) |
| Links.DistinctKeepsOrder | App/Program.cs:396 | Deduplication keeps a category-ordered list category-ordered |
| Links.FirstPos | App/Program.cs:396 | The position of the first entry with a given link, or the length when there is none |
| Links.DistinctInInputOrder | App/Program.cs:263 | Each deduplicated entry is the first input entry with its link, and entries earlier in the output come from earlier input positions, as `Enumerable.Distinct` keeps first occurrences in input order |
| Links.Distinct | App/Program.cs:263 | The one-pass loop with a set of seen links computes exactly `DistinctByLink` |
| Urls.HostPrefix | App/Program.cs:424-429 | The resolution host (the base reference unless blank, else the domain) with its trailing slashes replaced by exactly one |
| Urls.ExpandLink | App/Program.cs:417-450 | `ExpandLink`, with its four cases; its properties are the `Expand…` lemmas below |
| Urls.ExpandLinkEmpty | App/Program.cs:417-450 | `ExpandLink` yields the empty string exactly for the empty reference |
| Urls.ExpandBookmark | App/Program.cs:419-422 | A reference whose trimmed form starts with `#` becomes the page URL with outer slashes trimmed, one `/`, and the untrimmed reference; base reference and domain play no part |
| Urls.ExpandRootRelative | App/Program.cs:433-436 | A single-`/` reference becomes the resolution host without trailing slashes, one `/`, and the reference without its leading slashes |
| Urls.BaseRefOverridesDomain | App/Program.cs:424-428 | With a non-blank base reference the domain does not influence the result |
| Urls.BlankBaseRefIsMissing | App/Program.cs:425-428 | A blank (or null) base reference resolves exactly like a missing one |
| Urls.ExpandProtocolRelative | App/Program.cs:433-442 | A `//` reference is returned unchanged |
| Urls.ExpandFixedPoint | App/Program.cs:438-448 | A reference that is neither a bookmark, nor root-relative, nor host-like is returned unchanged, and expanding the result again changes nothing |
| Urls.SchemeForcedBare | App/Program.cs:462 | A colon-free form gets `http://` in front |
| Urls.SchemeForcedHttp | App/Program.cs:462 | An `http://` form keeps its single scheme |
| Urls.SchemeForcedHttps | App/Program.cs:458-462 | An `https://` form has its scheme replaced by `http://` |
| Urls.CouldBeCrawled | App/Program.cs:452-469 | `DetermineIfLinkCouldBeCrawled`; its properties are the `Crawl…` and `Normalize…` lemmas |
| Urls.NormalizeIgnoresSchemeAndWww | App/Program.cs:456-462 | The bare, `http://`, `https://`, `http://www.` and `https://www.` spellings of one lower-case address all normalise to the same `http://` form |
| Urls.CrawlIgnoresSchemeAndWww | App/Program.cs:452-469 | Hence the crawlability verdict is the same for all five spellings of a link |
| Urls.CrawlIgnoresCase | App/Program.cs:456 | Letter case in the link does not change the crawlability verdict |
| Urls.CrawlFailsClosed | App/Program.cs:463-468 | If the normalised link or domain does not parse as a URI (a schemeless domain, say), the link is not crawlable |
| Urls.SameAsPageUrl | App/Program.cs:471-486 | `IsLinkTheSameAsPageUrl`; its properties are the `SameAsPageUrl…` lemmas |
| Urls.SameAsPageUrlSymmetric | App/Program.cs:471-486 | The same-page test is symmetric in its two arguments |
| Urls.SameAsPageUrlIgnoresFragment | App/Program.cs:477-480 | Two parsed URLs with the same host (ignoring case) and the same path and query are the same page, whatever their fragments |
| Urls.SameAsPageUrlFailsClosed | App/Program.cs:482-485 | A URL that does not parse is never the same page as anything |
| StyleQuotes.DoubleQuoted | App/Program.cs:245-249 | A result is delimited by the first two double quotes and holds none; no result means fewer than two double quotes |
| StyleQuotes.SingleQuotedFrom | App/Program.cs:252-256 | A result is group 1 of the leftmost match of `'([^"]*)'`: it opens at a single quote that no earlier one beats, holds no double quote, and ends at the last single quote before the next double quote (the class is greedy). No result means no single quote opens a match |
| StyleQuotes.StyleUrl | App/Program.cs:242-257 | The extracted `url(...)` value of a style attribute never contains a double quote |
| Extraction.Reference | App/Program.cs:185-392 | The XPath strategy always hands a value on; the regex strategy skips a value exactly when it is empty. The value handed on is the trimmed capture, except for `style` values, where the XPath strategy hands on the quoted `url` of the trimmed value and the regex strategy the untrimmed `url(...)` capture |
| Extraction.Entry | App/Program.cs:185-261 | One loop iteration adds at most one entry. It has the loop's category, is crawlable only for anchors and areas on the domain, is no same-page anchor, area or image, and is non-empty in the XPath strategy |
| Extraction.EntryListed | App/Program.cs:185-261 | A raw value is listed exactly when its reference is handed on and its resolved link is kept (non-empty in the XPath strategy, and for anchors, areas and images not the page itself); the entry is then the resolved link with the loop's category and crawlability |
| Extraction.CategoryLinks | App/Program.cs:334-394 | One category loop yields at most one entry per raw value, all of that category |
| Extraction.CategoryLinksClassified | App/Program.cs:185-261 | Every entry of a category loop is classified as its iteration decided |
| Extraction.CategoryLinksComplete | App/Program.cs:334-394 | Whatever the iteration for any raw value adds appears in the category's list |
| Extraction.CategoryLinksListed | App/Program.cs:334-394 | Every raw value that one iteration keeps appears in its category's list as its resolved entry |
| Extraction.RawLinks | App/Program.cs:185-261 | The seven category loops in extraction order; its properties are the `RawLinks…` lemmas |
| Extraction.RawLinksListed | App/Program.cs:334-394 | Every kept raw value of any category has its link among the links before deduplication |
| Extraction.AnchorCrawlable | App/Program.cs:188-191 | An anchor entry is crawlable exactly when its reference is no bookmark and its link passes the domain test |
| Extraction.WithoutScriptSchemes | App/Program.cs:269-319 | The scan loops' filter keeps no more captures than it is given |
| Extraction.WithoutScriptSchemesSound | App/Program.cs:269-319 | The kept captures have no `data:` or `javascript:` scheme, and each occurs no more often than among the captures |
| Extraction.WithoutScriptSchemesComplete | App/Program.cs:269-319 | Every capture without such a scheme is kept |
| Extraction.WithoutScriptSchemesConcat | App/Program.cs:269-319 | The filter distributes over concatenation, so it keeps the captures' order |
| Extraction.WithoutScriptSchemesOne | App/Program.cs:272-275 | A single capture is kept exactly when it has no such scheme |
| Extraction.RegexCaptures | App/Program.cs:269-319 | The seven capture lists, filtered for all but images and `url(...)` captures |
| Extraction.XPathLinks | App/Program.cs:171-264 | `GetPageLinksUsingXPath`, with `None` for its exceptions; its properties are the `XPath…`, `PageLinks…` and `Fallback…` lemmas |
| Extraction.RegexLinks | App/Program.cs:266-397 | `GetPageLinksUsingRegex`; its properties are the `PageLinks…` lemmas |
| Extraction.PageLinks | App/Program.cs:155-169 | `GetPageLinks`; its properties are the `PageLinks…`, `…ListsEvery` and `Fallback…` lemmas |
| Extraction.KeepNavigable | App/Program.cs:270-276 | The scan loop with its scheme test computes exactly `WithoutScriptSchemes` |
| Extraction.RawLinksOrdered | App/Program.cs:185-261 | Before deduplication the entries come in the order URL, AREA, IMAGE, MEDIA, SCRIPT, CSSLINK, CSSBACKGROUND |
| Extraction.RawLinksClassified | App/Program.cs:334-394 | Every entry before deduplication is classified as its category loop decided |
| Extraction.PageLinksShape | App/Program.cs:155-169 | `GetPageLinks` has no duplicate link, is category-ordered, and holds every link the chosen strategy extracted |
| Extraction.XPathListsEvery | App/Program.cs:171-264 | When the XPath strategy succeeds, every node value whose resolved link is kept is among the links `GetPageLinks` returns |
| Extraction.RegexListsEvery | App/Program.cs:266-397 | When the XPath strategy fails, every non-empty capture kept by the scheme filter whose resolved link is kept is among the links `GetPageLinks` returns |
| Extraction.PageLinksClassified | App/Program.cs:191-217 | In the final list only anchors and areas on the crawl domain are crawlable, and no anchor, area or image points back to the page |
| Extraction.XPathLinksNonEmpty | App/Program.cs:190-259 | The XPath strategy never yields an empty link |
| Extraction.BaseHrefForcesRegex | App/Program.cs:183 | A page with `<base href>` but no `base/@ref` makes the XPath strategy fail, so `GetPageLinks` returns the regex result |
| Extraction.FallbackExactlyOnFailure | App/Program.cs:158-165 | The XPath strategy fails exactly when the markup is rejected or the base quirk fires; otherwise its result is returned |
| Extraction.XPathIgnoresPageCase | App/Program.cs:175 | The XPath result does not depend on the letter case of the page |
| Extraction.LowerPageSpelling | App/Program.cs:175 | The XML parser sees no upper-case letter other than those of `CDATA` |
| Extraction.AddEntry | App/Program.cs:185-196 | One iteration, written with the source's early `continue`s, appends exactly `Entry` |
| Extraction.CollectCategory | App/Program.cs:334-345 | The `foreach` over one category's values computes exactly `CategoryLinks` |
| Extraction.CollectAll | App/Program.cs:334-394 | The seven loops in order compute exactly `RawLinks` |
| Extraction.GetPageLinksUsingXPath | App/Program.cs:171-264 | Equals `XPathLinks`, with `None` for the exception |
| Extraction.GetPageLinksUsingRegex | App/Program.cs:266-397 | Equals `RegexLinks` |
| Extraction.GetPageLinks | App/Program.cs:155-169 | Equals `PageLinks`, and the result has no duplicate link and is category-ordered |
| SitemapXml.AppendLink | App/Program.cs:405-414 | One iteration adds exactly two nodes |
| SitemapXml.AppendLinkShape | App/Program.cs:405-414 | One iteration appends a category element and a `LOC` element with the encoded link, and adds the category element as the parent's last child; nothing else changes |
| SitemapXml.WithLinks | App/Program.cs:399-415 | The loop adds two nodes per link |
| SitemapXml.WithLinksLast | App/Program.cs:401-414 | The tree after all links is the tree after all but the last, with the last link's iteration applied, so the loop builds it link by link in list order |
| SitemapXml.WithLinksShape | App/Program.cs:401-414 | For the k-th link: a category element named after its category whose only child is a `LOC` holding the encoded link. The parent gains these elements after its old children, in list order, and all other nodes are unchanged |
| SitemapXml.WithLinksGrows | App/Program.cs:405-414 | Appending keeps every child index in range and only extends the tree |
| SitemapXml.FirstWithLoc | App/Program.cs:103 | Returns the first of the given children having a `LOC` child with the key, or none if none has one |
| SitemapXml.FindChild | App/Program.cs:103 | `SelectSingleNode("./*[LOC/text()=key]")` yields a direct child with such a `LOC`, and no result only when no direct child has one |
| SitemapXml.AppendedHasLoc | App/Program.cs:410-412 | An appended category element holds a `LOC` with a key exactly when its link encodes to that key |
| SitemapXml.FindAppendedLink | App/Program.cs:103 | With an injective encoding and distinct links, the lookup of an appended link finds its own category element |
| SitemapXml.Sitemap.constructor | App/Program.cs:83-85 | The new document holds only the `SITEMAP` element |
| SitemapXml.Sitemap.GeneratePageLinksAsXML | App/Program.cs:399-415 | A null list changes nothing; otherwise the tree becomes exactly `WithLinks` of the old tree, and stays well formed |
| PageCache.Read | App/Program.cs:127-153 | After a read the URL is in the dictionary and the returned body is its stored value |
| PageCache.Downloaded | App/Program.cs:134-148 | The download, or `""` when it throws; the cases are stated by `ReadMiss` |
| PageCache.ReadHit | App/Program.cs:130-133 | A cached URL returns its stored body and leaves the dictionary unchanged |
| PageCache.ReadMiss | App/Program.cs:134-152 | An uncached URL returns the download, or `""` on failure. The dictionary gains exactly that key and keeps every old entry |
| PageCache.ReadIdempotent | App/Program.cs:127-153 | Reading the same URL twice changes nothing the second time and returns the same body |
| PageCache.ReadIgnoresFetchOnceCached | App/Program.cs:130-133 | Once a URL is read, later reads do not depend on the network |
| PageCache.FetchCache.constructor | App/Program.cs:81 | The dictionary starts as the one handed to `Crawl` |
| PageCache.FetchCache.ReadPage | App/Program.cs:127-153 | Equals `Read`: on a hit the dictionary is unchanged; on a miss it gains exactly the URL with the download (or `""`) |
| Crawler.ExtractorFollowable | App/Program.cs:191-202 | Every link the extraction marks crawlable passes the domain test |
| Crawler.Visit | App/Program.cs:101-121 | One iteration keeps all cached entries and the budget, and only grows the tree. A new entry is its download. A non-crawlable link, an exhausted budget or an unmatched link changes nothing, and a cached link downloads nothing; the cases that follow or re-list a link are `VisitFollowsNew` and `VisitCachedRelists` |
| Crawler.Follow | App/Program.cs:106-113 | Reading and walking a new page keeps all entries and the budget. The page is cached with its download, and the final tree grows from the tree with the page's links (extracted against the listing page's URL) listed under its element |
| Crawler.Relist | App/Program.cs:114-121 | Re-listing a cached page leaves the dictionary unchanged and only grows the tree |
| Crawler.CrawlFrom | App/Program.cs:98-124 | The rest of the loop keeps all cached entries and the budget, stores only downloads, and only grows the tree |
| Crawler.CrawlResult | App/Program.cs:81-90 | `Crawl`: the state after reading the domain page, listing its links and walking them; its properties are the `Crawl…` lemmas |
| Crawler.VisitCachedRelists | App/Program.cs:114-121 | A crawlable cached link that is found is listed again from its stored body under its element: no download, no walk below it |
| Crawler.VisitFollowsNew | App/Program.cs:101-113 | A crawlable link not yet read and found under its parent while the budget lasts is followed: its download is cached and its links are listed under its element before the walk below it |
| Crawler.VisitReadsOnly | App/Program.cs:101-112 | A visit adds only pages whose links satisfy any property that every crawlable link satisfies |
| Crawler.FollowReadsOnly | App/Program.cs:106-112 | The same for reading and walking a new page |
| Crawler.CrawlFromReadsOnly | App/Program.cs:98-124 | The same for the rest of the loop |
| Crawler.CrawlFromExhausted | App/Program.cs:101 | Once the dictionary holds `maxIndexedPageSize` entries the rest of the loop changes nothing |
| Crawler.CrawlFromNothingCrawlable | App/Program.cs:101 | Links not marked crawlable are never followed |
| Crawler.CrawlBudget | App/Program.cs:81-125 | A crawl keeps every given entry and caches the domain page. The dictionary ends with at most `max(size after the domain page, maxIndexedPageSize)` entries. Every other new entry is the download of a link on the crawl domain |
| Crawler.CrawlTreeStartsWithDomainLinks | App/Program.cs:83-88 | The sitemap's root is `SITEMAP`, and its first children are the domain page's links in the `GeneratePageLinksAsXML` shape |
| Crawler.FirstLevelOnly | App/Program.cs:86-101 | When the budget is spent by the domain page, the sitemap lists only the domain page's links, unexpanded |
| Crawler.CrawlReadsFirstLink | App/Program.cs:86-113 | With an injective encoding, when the first link of the domain page is crawlable and the budget is not spent, that page ends in the dictionary, as its download unless it was cached before |
| Crawler.WalkReadsFirstLink | App/Program.cs:98-113 | The walk under `SITEMAP` over distinct links reads the first link when it is crawlable and the budget lasts |
| Crawler.CrawlRecursively | App/Program.cs:92-125 | A null list changes nothing. Otherwise the dictionary and tree become exactly `CrawlFrom` of the old ones, the dictionary keeps its entries, and it stays within the budget |
| Crawler.VisitLink | App/Program.cs:101-121 | The body of the `foreach` for one link computes exactly `Visit` |
| Crawler.FollowNewLink | App/Program.cs:106-113 | The branch for a new crawlable link computes exactly `Follow` |
| Crawler.RelistReadLink | App/Program.cs:114-121 | The branch for a crawlable link read before computes exactly `Relist`, from the stored body and without a download |
| Crawler.Crawl | App/Program.cs:81-90 | The fresh document and the final dictionary are exactly `CrawlResult` |

## Left out

- `Main`: argument parsing, the usage text, the time-stamped output file name and `File.WriteAllText`. These are the command line and file output.
- Console logging: output only.
- `WebClient.DownloadString`: the `fetch` field of `Env`. Any exception is `None`, which is stored as `""`.
- `XmlDocument.LoadXml` and the XPath queries: the `parseXml` field.
  - It returns the seven attribute lists, whether `//base/@href` selects a node, and the first `//base/@ref` value.
  - XML syntax is not modelled.
  - An exception from the XPath strategy other than a rejected parse or the base quirk is not modelled; the queries only select nodes that carry the attribute read.
- The .NET regular-expression engine: the `scanRegex` field, which gives the captures of each scan in order, including the lookahead of the `url(...)` pattern. The hand-written `style` quote patterns are modelled exactly in `StyleQuotes`.
- `new Uri`, `DnsSafeHost`, `PathAndQuery` and `Fragment`: the `parseUri` field. A failed parse is `None`.
- `Uri.CheckHostName`: the `hostLike` field.
- Urls.HostLike: besides the abstract `hostLike`, it fixes that the empty string and strings starting with `/` are never a Dns, IPv4 or IPv6 host, as .NET answers for them. `Urls.ExpandProtocolRelative` relies on this.
- `HttpUtility.HtmlEncode`: the `encode` field.
- Crawler.CrawlReadsFirstLink: assumes the encoding is injective, as `SitemapXml.FindAppendedLink` does.
- SitemapXml.FindAppendedLink: assumes the encoding is injective and the links distinct, as `GetPageLinks` guarantees for the links.
- Culture-sensitive `ToLower`: modelled as ASCII lower-casing.
- Culture-sensitive `String.StartsWith(string)` (the bookmark tests, root-relative tests, scheme tests and the `data:`/`javascript:` filter): modelled as a plain character-by-character prefix test. Culture rules that ignore or combine characters are not modelled.
- `char.IsWhiteSpace`: modelled by the ASCII and Latin-1 white-space characters only.
- Null references: a null base reference is the empty string, and a null link list is `None`.
- The XML document: modelled as an arena of element nodes (tag, text, child indices), with no attributes and no XML serialisation (`OuterXml`).
- The unused `url` and `domain` parameters of `GeneratePageLinksAsXML`: dropped.
- `int` overflow of `processedLinks.Count` and `maxIndexedPageSize`: not modelled, since a dictionary cannot exceed `int` range in practice.
- The tests that crawl live web sites (`AppTest/ProgramTest.cs:16-52`): they depend on the network.
- The literal examples in `AppTest/ProgramTest.cs:154-169`: covered by the general lemmas above, not restated on string literals. `DetermineIfLinkCouldBeCrawled` additionally depends on the URI parser.
