/**
 * `ReadPage` and the `processedLinks` dictionary it fills: every URL is
 * downloaded at most once, and a failed download is remembered as the empty page.
 */
module PageCache {
  import opened Wrappers

  /** The body a download yields: the downloaded text, or the empty string when the request throws. */
  function Downloaded(fetch: string -> Option<string>, url: string): string {
    if fetch(url).Some? then fetch(url).value else ""
  }

  /** The dictionary and the returned body after `ReadPage(url)`. */
  datatype ReadResult = ReadResult(pages: map<string, string>, body: string)

  function Read(pages: map<string, string>, url: string, fetch: string -> Option<string>): (r: ReadResult)
    ensures url in r.pages && r.pages[url] == r.body
  {
    if url in pages then ReadResult(pages, pages[url])
    else
      var pageData := Downloaded(fetch, url);
      ReadResult(pages[url := pageData], pageData)
  }

  /** `old` is contained in `new`: no key is dropped and no stored body changes. */
  ghost predicate Extends(old_pages: map<string, string>, new_pages: map<string, string>) {
    forall k :: k in old_pages ==> k in new_pages && new_pages[k] == old_pages[k]
  }

  /** A cached URL is answered from the dictionary, which stays as it was. */
  lemma ReadHit(pages: map<string, string>, url: string, fetch: string -> Option<string>)
    requires url in pages
    ensures Read(pages, url, fetch) == ReadResult(pages, pages[url])
  {
  }

  /** An uncached URL is downloaded once and stored: the dictionary gains exactly that key. */
  lemma ReadMiss(pages: map<string, string>, url: string, fetch: string -> Option<string>)
    requires url !in pages
    ensures Read(pages, url, fetch).body == Downloaded(fetch, url)
    ensures Read(pages, url, fetch).pages.Keys == pages.Keys + {url}
    ensures |Read(pages, url, fetch).pages| == |pages| + 1
    ensures Extends(pages, Read(pages, url, fetch).pages)
  {
    assert pages[url := Downloaded(fetch, url)].Keys == pages.Keys + {url};
  }

  /** Reading the same URL again changes nothing and returns the same body. */
  lemma ReadIdempotent(pages: map<string, string>, url: string, fetch: string -> Option<string>)
    ensures var first := Read(pages, url, fetch);
      Read(first.pages, url, fetch) == first
  {
  }

  /** Once read, a URL's body no longer depends on the network. */
  lemma ReadIgnoresFetchOnceCached(pages: map<string, string>, url: string, f: string -> Option<string>, g: string -> Option<string>)
    ensures var first := Read(pages, url, f);
      Read(first.pages, url, g).body == first.body
  {
  }

  /** The `processedLinks` dictionary. */
  class FetchCache {
    var pages: map<string, string>

    constructor (initial: map<string, string>)
      ensures pages == initial
    {
      pages := initial;
    }

    /** `ReadPage(url, processedLinks)`. */
    method ReadPage(url: string, fetch: string -> Option<string>) returns (pageData: string)
      modifies this
      ensures ReadResult(pages, pageData) == Read(old(pages), url, fetch)
      ensures url in old(pages) ==> pages == old(pages)
      ensures url !in old(pages) ==> pages == old(pages)[url := Downloaded(fetch, url)]
    {
      if url in pages {
        return pages[url];
      }
      var downloaded := fetch(url);
      if downloaded.Some? {
        pageData := downloaded.value;
      } else {
        pageData := "";
      }
      pages := pages[url := pageData];
      pageData := pages[url];
    }
  }
}
