/**
 * The crawler's foreign collaborators, given to the model as total functions:
 * the HTTP transport, the XML parser with its XPath queries, the regex scans,
 * `System.Uri`, `Uri.CheckHostName` and `HttpUtility.HtmlEncode`.
 */
module Environment {
  import opened Wrappers

  /** What `new Uri(s)` exposes to the crawler: `DnsSafeHost`, `PathAndQuery` and `Fragment`. */
  datatype UriParts = UriParts(host: string, pathAndQuery: string, fragment: string)

  /**
   * Raw attribute values per element kind, in document order. `css` holds the whole
   * `style` attribute values for the XPath strategy and the captured `url(...)`
   * arguments for the regex strategy.
   */
  datatype Captures = Captures(
    a: seq<string>,
    area: seq<string>,
    img: seq<string>,
    source: seq<string>,
    script: seq<string>,
    link: seq<string>,
    css: seq<string>)

  /**
   * The result of loading the lower-cased page as XML and running the nine XPath
   * queries: the seven node lists, whether `//base/@href` selects a node, and the
   * value of the first `//base/@ref` node, if any.
   */
  datatype XmlDoc = XmlDoc(caps: Captures, hasBaseHref: bool, baseRefAttr: Option<string>)

  /** The captures of the seven regex scans, plus every capture of the `<base href>` scan. */
  datatype RegexScan = RegexScan(caps: Captures, bases: seq<string>)

  datatype Env = Env(
    /** `WebClient.DownloadString`; `None` stands for any exception it throws. */
    fetch: string -> Option<string>,
    /** `XmlDocument.LoadXml` followed by the queries; `None` when the markup is rejected. */
    parseXml: string -> Option<XmlDoc>,
    /** The `Regex.Matches` scans of the raw page. */
    scanRegex: string -> RegexScan,
    /** `new Uri(s)`; `None` when the constructor throws. */
    parseUri: string -> Option<UriParts>,
    /** `Uri.CheckHostName(s)` is neither `Basic` nor `Unknown`. */
    hostLike: string -> bool,
    /** `HttpUtility.HtmlEncode`. */
    encode: string -> string)
}
