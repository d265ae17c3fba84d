/** Choosing an article's image: the precedence chains of `get_article_image` and of the feed loop. */
module Images {
  import opened Wrappers

  /** Python truthiness of an optional string: present and not empty. */
  predicate Truthy(o: Option<string>) {
    o.Some? && o.value != []
  }

  /** The reference precedence: the first truthy candidate, or `None` when there is none. */
  function FirstTruthy(candidates: seq<Option<string>>): (r: Option<string>)
    ensures r.None? <==> forall i :: 0 <= i < |candidates| ==> !Truthy(candidates[i])
    ensures r.Some? ==> Truthy(r) && exists i :: 0 <= i < |candidates| && candidates[i] == r
                                                && forall j :: 0 <= j < i ==> !Truthy(candidates[j])
  {
    if candidates == [] then None
    else if Truthy(candidates[0]) then candidates[0]
    else
      var rest := FirstTruthy(candidates[1..]);
      assert forall i :: 1 <= i < |candidates| ==> candidates[i] == candidates[1..][i - 1];
      rest
  }

  /**
   * What `SESSION.get(url)` and the BeautifulSoup parse give `get_article_image`.
   * `Raised` is any exception the `try` block catches (timeout, connection error, parse error).
   * For a response, `ogImage` is the `content` of the first `<meta property="og:image">`,
   * `twitterImage` the `content` of the first `<meta name="twitter:image">` and `firstImg`
   * the `src` of the first `<img>`; each is `None` when the tag or the attribute is missing.
   */
  datatype PageFetch =
    | Raised
    | Response(status: int, ogImage: Option<string>, twitterImage: Option<string>, firstImg: Option<string>)

  /** `get_article_image(url)`; `urlJoin` stands for `urllib.parse.urljoin`. */
  function GetArticleImage(url: string, page: PageFetch, urlJoin: (string, string) -> string): (r: Option<string>)
    ensures r.None? <==>
      || page.Raised?
      || page.status != 200
      || FirstTruthy([page.ogImage, page.twitterImage, page.firstImg]).None?
    ensures r.Some? ==>
      r.value == urlJoin(url, FirstTruthy([page.ogImage, page.twitterImage, page.firstImg]).value)
  {
    match page
    case Raised => None
    case Response(status, og, tw, img) =>
      assert [og, tw, img][1..] == [tw, img] && [tw, img][1..] == [img] && [img][1..] == [];
      assert FirstTruthy([img]) == if Truthy(img) then img else None;
      assert FirstTruthy([tw, img]) == if Truthy(tw) then tw else FirstTruthy([img]);
      if status != 200 then None
      else if Truthy(og) then Some(urlJoin(url, og.value))
      else if Truthy(tw) then Some(urlJoin(url, tw.value))
      else if Truthy(img) then Some(urlJoin(url, img.value))
      else None
  }

  /** `seq[0]` for a non-empty list; an absent or empty attribute both give `None`. */
  function FirstOf(urls: seq<Option<string>>): Option<string> {
    if urls == [] then None else urls[0]
  }

  /**
   * The image of a feed entry (bot.py's feed loop): the `url` of the first `media_content`,
   * else that of the first `media_thumbnail`, else the scraped article image. `mediaContent`
   * and `mediaThumbnail` hold each element's `url` (`None` where it has none); a missing
   * attribute is the empty list. `scraped` is what `get_article_image(link)` would return.
   */
  function EntryImage(mediaContent: seq<Option<string>>, mediaThumbnail: seq<Option<string>>,
                      scraped: Option<string>): (r: Option<string>)
    ensures r == match FirstTruthy([FirstOf(mediaContent), FirstOf(mediaThumbnail)])
                 case Some(u) => Some(u)
                 case None => scraped
  {
    var image := if mediaContent != [] then mediaContent[0] else None;
    var image' := if !Truthy(image) && mediaThumbnail != [] then mediaThumbnail[0] else image;
    if Truthy(image') then image' else scraped
  }
}
