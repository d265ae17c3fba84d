/** `fetch_cod_articles`: turning the Kotaku feed's entries into the bot's items. */
module Feed {
  import opened Wrappers
  import opened Slicing
  import opened Summary
  import opened Images

  /**
   * One entry of `feedparser.parse(KOTAKU_FEED).entries`, as far as the bot reads it.
   * `summary` is "" when the entry has none; `published` is `published_parsed` as seconds,
   * `None` when absent; `mediaContent` and `mediaThumbnail` hold the `url` of each element.
   */
  datatype Entry = Entry(
    link: string,
    title: string,
    summary: string,
    published: Option<int>,
    mediaContent: seq<Option<string>>,
    mediaThumbnail: seq<Option<string>>)

  /** The dict `fetch_cod_articles` builds for each entry; `time` is in seconds. */
  datatype Item = Item(id: string, url: string, title: string, summary: string, time: int, image: Option<string>)

  /**
   * The library calls and the outside world the feed code consults, as given inputs:
   * `htmlText` is BeautifulSoup's text extraction followed by `html.unescape`,
   * `unescape` is `html.unescape`, `urlJoin` is `urljoin`, `page` is what fetching and
   * parsing an article page gives, and `now` is `datetime.now(timezone.utc)` in seconds.
   */
  datatype Library = Library(
    htmlText: string -> string,
    unescape: string -> string,
    urlJoin: (string, string) -> string,
    page: string -> PageFetch,
    now: int)

  /** The item built from one entry in the loop body of `fetch_cod_articles`. */
  function ItemOf(e: Entry, lib: Library): (r: Item)
    // the id is the link, and so is the url
    ensures r.id == e.link && r.url == e.link
    ensures r.title == lib.unescape(e.title)
    ensures |r.summary| <= SummaryMaxLen
    // the publication time when the feed gives one, otherwise the time of the fetch
    ensures r.time == if e.published.Some? then e.published.value else lib.now
    // feed media first, the scraped page last
    ensures r.image == match FirstTruthy([FirstOf(e.mediaContent), FirstOf(e.mediaThumbnail)])
                       case Some(u) => Some(u)
                       case None => GetArticleImage(e.link, lib.page(e.link), lib.urlJoin)
  {
    var scraped := GetArticleImage(e.link, lib.page(e.link), lib.urlJoin);
    Item(
      e.link,
      e.link,
      lib.unescape(e.title),
      CleanSummary(e.summary, SummaryMaxLen, lib.htmlText),
      e.published.GetOr(lib.now),
      EntryImage(e.mediaContent, e.mediaThumbnail, scraped))
  }

  /** The items of `fetch_cod_articles(limit)`, as a value. */
  function Fetched(entries: seq<Entry>, limit: int, lib: Library): (r: seq<Item>)
    ensures |r| == |Prefix(entries, limit)| <= |entries|
    ensures 0 <= limit ==> |r| <= limit
    // in feed order, one item per leading entry
    ensures forall i :: 0 <= i < |r| ==> r[i] == ItemOf(entries[i], lib)
  {
    var taken := Prefix(entries, limit);
    seq(|taken|, i requires 0 <= i < |taken| => ItemOf(taken[i], lib))
  }

  /** `fetch_cod_articles(limit)`: a loop over `entries[:limit]` that appends one item per entry. */
  method FetchArticles(entries: seq<Entry>, limit: int, lib: Library) returns (items: seq<Item>)
    ensures items == Fetched(entries, limit, lib)
    ensures 0 <= limit ==> |items| <= limit
    ensures forall i :: 0 <= i < |items| ==> items[i].id == entries[i].link && items[i].url == entries[i].link
  {
    var taken := Prefix(entries, limit);
    items := [];
    for i := 0 to |taken|
      invariant |items| == i
      invariant forall j :: 0 <= j < i ==> items[j] == ItemOf(taken[j], lib)
    {
      items := items + [ItemOf(taken[i], lib)];
    }
  }
}
