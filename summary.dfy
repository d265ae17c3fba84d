/** `clean_summary`: the feed summary as plain text, cut to a tidy length. */
module Summary {
  import opened Slicing

  /** The default `max_len` of `clean_summary`, the only one the bot uses. */
  const SummaryMaxLen: int := 320

  /** The single character "…" appended to a cut summary. */
  const Ellipsis: char := '\U{2026}'

  /** The characters Python's `str.isspace` accepts, which `str.rstrip()` removes. */
  predicate IsSpace(c: char) {
    || ('\U{0009}' <= c <= '\U{000D}')
    || ('\U{001C}' <= c <= '\U{0020}')
    || c == '\U{0085}' || c == '\U{00A0}' || c == '\U{1680}'
    || ('\U{2000}' <= c <= '\U{200A}')
    || c == '\U{2028}' || c == '\U{2029}' || c == '\U{202F}' || c == '\U{205F}' || c == '\U{3000}'
  }

  predicate AllSpace(s: string) {
    forall i :: 0 <= i < |s| ==> IsSpace(s[i])
  }

  /** `s.rstrip()`: the longest prefix of `s` that does not end in whitespace, and all that was cut is whitespace. */
  function RStrip(s: string): (r: string)
    ensures r <= s
    ensures AllSpace(s[|r|..])
    ensures r == [] || !IsSpace(r[|r| - 1])
    decreases |s|
  {
    if s != [] && IsSpace(s[|s| - 1]) then RStrip(s[..|s| - 1]) else s
  }

  /**
   * `clean_summary(summary_html, max_len)`. `htmlText` stands for the two library
   * steps, BeautifulSoup's `get_text(" ", strip=True)` followed by `html.unescape`.
   */
  function CleanSummary(summaryHtml: string, maxLen: int, htmlText: string -> string): (r: string)
    // an empty summary is never parsed
    ensures summaryHtml == [] ==> r == []
    // text that fits is returned as it is
    ensures summaryHtml != [] && |htmlText(summaryHtml)| <= maxLen ==> r == htmlText(summaryHtml)
    // text that does not fit is a prefix of itself followed by the ellipsis
    ensures summaryHtml != [] && |htmlText(summaryHtml)| > maxLen ==>
      |r| >= 1 && r[|r| - 1] == Ellipsis && r[..|r| - 1] <= htmlText(summaryHtml)
    // for a positive bound: at most max_len - 1 characters are kept, only trailing whitespace is dropped from those
    ensures summaryHtml != [] && |htmlText(summaryHtml)| > maxLen >= 1 ==>
      var text := htmlText(summaryHtml);
      && |r| <= maxLen
      && AllSpace(text[|r| - 1..maxLen - 1])
      && (|r| == 1 || !IsSpace(r[|r| - 2]))
    // the length bound
    ensures maxLen >= 1 ==> |r| <= maxLen
  {
    if summaryHtml == [] then []
    else
      var text := htmlText(summaryHtml);
      if |text| > maxLen then
        var kept := RStrip(Prefix(text, maxLen - 1));
        assert kept <= text;
        kept + [Ellipsis]
      else
        text
  }
}
