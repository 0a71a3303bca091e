/**
 * `google_ai_news_crawler.py`: Google News search results for a keyword,
 * ten per page, turned into news records; `main` crawls two keywords,
 * de-duplicates by title and saves the spreadsheet.
 */
module GoogleCrawler {
  import opened Options
  import opened Decimal
  import opened Dates
  import opened Substrings
  import opened PercentCoding
  import opened Markup
  import opened NewsRecords
  import opened SearchCrawl

  const ContainerSelectors: seq<Selector> := ["div.SoaBEf", "div.vJOb1e", "div.mCBkyc.y355M.JQe2Ld.nDgy9d"]
  const TitleSelectors: seq<Selector> := [".n0jPhd", ".mCBkyc"]
  const SourceSelectors: seq<Selector> := [".MgUUmf", ".CEMjEf span"]
  const SummarySelectors: seq<Selector> := [".GI74Re", ".Y3v8qd"]
  const DateSelectors: seq<Selector> := [".ZE0LJd span", ".OSrXXb span"]
  const ImageSelector: Selector := "img.XNo5Ab"

  const RedirectMarker: string := "/url?q="
  const RedirectEnd: string := "&sa="

  /** The file name prefix of the saved spreadsheet. */
  const FilePrefix: string := "google_ai_news_"

  const Keywords: seq<string> := ["인공지능", "AI"]
  /** `urllib.parse.quote` of each keyword: the UTF-8 bytes of the Hangul escaped, ASCII letters kept. */
  const EncodedKeywords: seq<string> := ["%EC%9D%B8%EA%B3%B5%EC%A7%80%EB%8A%A5", "AI"]
  const PagesPerKeyword: nat := 2

  // ---------------------------------------------------------------------
  // Paging

  /** Page `page`, counted from 0, starts at result `page * 10`. */
  function StartIndex(page: nat): nat {
    page * 10
  }

  function SearchUrl(encodedKeyword: string, start: nat): string {
    "https://www.google.com/search?q=" + encodedKeyword + "&tbm=nws&start=" + NatToString(start) + "&hl=ko"
  }

  /** Different start offsets give different URLs, so no two pages of a crawl share a response. */
  lemma SearchUrlInjective(encodedKeyword: string, a: nat, b: nat)
    requires SearchUrl(encodedKeyword, a) == SearchUrl(encodedKeyword, b)
    ensures a == b
  {
    var front := "https://www.google.com/search?q=" + encodedKeyword + "&tbm=nws&start=";
    var u := SearchUrl(encodedKeyword, a);
    var v := SearchUrl(encodedKeyword, b);
    assert u[|front|..|u| - 6] == NatToString(a);
    assert v[|front|..|v| - 6] == NatToString(b);
    NatToStringInjective(a, b);
  }

  // ---------------------------------------------------------------------
  // One result container

  /**
   * The article URL of a result link: a Google redirect `/url?q=<target>&sa=...`
   * yields the percent-decoded target, any other link is kept as it is.
   */
  function UnwrapLink(href: string): (link: string)
    ensures !Contains(href, RedirectMarker) ==> link == href
  {
    if Contains(href, RedirectMarker) then
      var afterMarker := Split(href, RedirectMarker)[1];
      Unquote(Split(afterMarker, RedirectEnd)[0])
    else href
  }

  /**
   * A redirect link yields the percent-decoded text between its first
   * `/url?q=` and the first `&sa=` after it, whatever precedes the marker
   * and whatever follows `&sa=`.
   */
  lemma UnwrapRedirect(pre: string, target: string, tail: string)
    requires IndexOf(pre + RedirectMarker, RedirectMarker) == Some(|pre|)
    requires !Contains(target, RedirectMarker) && !Contains(target, RedirectEnd)
    ensures UnwrapLink(pre + RedirectMarker + target + RedirectEnd + tail) == Unquote(target)
  {
    hide Split;
    hide IndexOf;
    hide Unquote;
    var rest := target + RedirectEnd + tail;
    assert pre + RedirectMarker + target + RedirectEnd + tail == (pre + RedirectMarker) + rest;
    AfterFirstMarker(pre, rest);
    BeforeFirstEnd(target, tail);
  }

  /** The part after the first marker is everything that follows it, up to a second marker if any. */
  lemma AfterFirstMarker(pre: string, rest: string)
    requires IndexOf(pre + RedirectMarker, RedirectMarker) == Some(|pre|)
    ensures Contains((pre + RedirectMarker) + rest, RedirectMarker)
    ensures Split((pre + RedirectMarker) + rest, RedirectMarker)[1] == Split(rest, RedirectMarker)[0]
  {
    var href := (pre + RedirectMarker) + rest;
    IndexOfExtend(pre + RedirectMarker, RedirectMarker, rest, |pre|);
    SplitAt(href, RedirectMarker, |pre|);
    assert href[|pre| + |RedirectMarker|..] == rest;
  }

  /** Up to a second marker, the text after the first marker still holds the target and the first `&sa=`. */
  lemma BeforeFirstEnd(target: string, tail: string)
    requires !Contains(target, RedirectMarker) && !Contains(target, RedirectEnd)
    ensures Split(Split(target + RedirectEnd + tail, RedirectMarker)[0], RedirectEnd)[0] == target
  {
    var part := Split(target + RedirectEnd + tail, RedirectMarker)[0];
    SplitFirstKeeps(target, RedirectEnd, tail, RedirectMarker);
    var u := part[|target| + |RedirectEnd|..];
    assert part == target + RedirectEnd + u;
    FirstAtJoin(target, RedirectEnd, u);
    SplitFirst(part, RedirectEnd, |target|);
  }

  /** The text between `/url?q=` and `&sa=` of a redirect to `target`, for any `tail`. */
  lemma UnwrapAtStart(target: string, tail: string)
    requires !Contains(target, RedirectMarker) && !Contains(target, RedirectEnd)
    ensures UnwrapLink(RedirectMarker + target + RedirectEnd + tail) == Unquote(target)
  {
    IndexOfAtStart(RedirectMarker, RedirectMarker);
    assert [] + RedirectMarker == RedirectMarker;
    UnwrapRedirect([], target, tail);
    assert [] + RedirectMarker + target + RedirectEnd + tail == RedirectMarker + target + RedirectEnd + tail;
  }

  /**
   * Unwrapping inverts the redirect: a fully escaped article URL comes back
   * unchanged, whatever Google appends after `&sa=`.
   */
  lemma UnwrapEscapedRedirect(article: string, tail: string)
    requires forall i :: 0 <= i < |article| ==> article[i] as int < 256
    ensures UnwrapLink(RedirectMarker + Escape(article) + RedirectEnd + tail) == article
  {
    EscapedIsPlain(article);
    UnwrapPlain(Escape(article), tail);
    UnquoteEscape(article);
  }

  lemma UnwrapPlain(target: string, tail: string)
    requires forall i :: 0 <= i < |target| ==> target[i] != '/' && target[i] != '&'
    ensures UnwrapLink(RedirectMarker + target + RedirectEnd + tail) == Unquote(target)
  {
    AbsentFirstChar(target, RedirectMarker);
    AbsentFirstChar(target, RedirectEnd);
    UnwrapAtStart(target, tail);
  }

  lemma EscapedIsPlain(article: string)
    requires forall i :: 0 <= i < |article| ==> article[i] as int < 256
    ensures forall i :: 0 <= i < |Escape(article)| ==> Escape(article)[i] != '/' && Escape(article)[i] != '&'
  {
    var e := Escape(article);
    forall i | 0 <= i < |e|
      ensures e[i] != '/' && e[i] != '&'
    {
      assert e[i] == '%' || HexValue(e[i]).Some?;
    }
  }

  /** The link field: the unwrapped `href` of the first anchor; empty without an anchor or `href`. */
  function LinkField(item: Container): string {
    match SelectOne(item, "a")
    case None => ""
    case Some(a) => if Attr(a, "href").Some? then UnwrapLink(Attr(a, "href").value) else ""
  }

  /**
   * The record read from one container. A container yields a record exactly
   * when a title selector matches; the title is that element's stripped text
   * and no other field decides whether the record is kept; source, summary
   * and date are the stripped text of their first matching selector and the
   * image its `src`, and fields that cannot be resolved take their
   * placeholders.
   */
  function Extract(item: Container): (r: Option<NewsRecord>)
    ensures r.Some? <==> FirstMatch(item, TitleSelectors).Some?
    ensures r.Some? ==> r.value.title == Strip(FirstMatch(item, TitleSelectors).value.text)
    ensures r.Some? ==> r.value.link == LinkField(item)
    ensures r.Some? && SelectOne(item, "a").None? ==> r.value.link == ""
    ensures r.Some? && FirstMatch(item, SourceSelectors).None? ==> r.value.source == Unknown
    ensures r.Some? && FirstMatch(item, SourceSelectors).Some? ==>
              r.value.source == Strip(FirstMatch(item, SourceSelectors).value.text)
    ensures r.Some? && FirstMatch(item, SummarySelectors).None? ==> r.value.summary == Unknown
    ensures r.Some? && FirstMatch(item, SummarySelectors).Some? ==>
              r.value.summary == Strip(FirstMatch(item, SummarySelectors).value.text)
    ensures r.Some? && FirstMatch(item, DateSelectors).None? ==> r.value.published == Unknown
    ensures r.Some? && FirstMatch(item, DateSelectors).Some? ==>
              r.value.published == Strip(FirstMatch(item, DateSelectors).value.text)
    ensures r.Some? && FirstMatch(item, [ImageSelector]).None? ==> r.value.imageUrl == ""
    ensures r.Some? && FirstMatch(item, [ImageSelector]).Some? ==>
              r.value.imageUrl == Attr(FirstMatch(item, [ImageSelector]).value, "src").GetOr("")
  {
    match FirstMatch(item, TitleSelectors)
    case None => None
    case Some(titleElem) =>
      Some(NewsRecord(
        title := Strip(titleElem.text),
        link := LinkField(item),
        source := TextField(item, SourceSelectors),
        summary := TextField(item, SummarySelectors),
        published := TextField(item, DateSelectors),
        imageUrl := ImageField(item, [ImageSelector])))
  }

  /** Google News search for one (already URL-encoded) keyword. */
  function GoogleSearch(encodedKeyword: string): Engine {
    Engine((p: nat) => SearchUrl(encodedKeyword, StartIndex(p)), ContainerSelectors, Extract)
  }

  // ---------------------------------------------------------------------
  // The crawl

  /**
   * `get_google_news(keyword, pages)`: requests pages `0 .. pages - 1` at
   * offsets `0, 10, 20, ...`; each page's containers come from the selector
   * cascade, each container with a title adds its record; a failed request
   * (no response in `web`) adds nothing and the crawl goes on.
   */
  method GetGoogleNews(encodedKeyword: string, pages: int, web: map<string, Page>)
    returns (newsList: seq<NewsRecord>, requested: seq<string>)
    ensures |requested| == PagesAttempted(pages)
    ensures forall p :: 0 <= p < |requested| ==> requested[p] == SearchUrl(encodedKeyword, p * 10)
    ensures newsList == Crawl(web, GoogleSearch(encodedKeyword), PagesAttempted(pages))
  {
    ghost var e := GoogleSearch(encodedKeyword);
    newsList := [];
    requested := [];
    for page := 0 to PagesAttempted(pages)
      invariant |requested| == page
      invariant forall p :: 0 <= p < page ==> requested[p] == SearchUrl(encodedKeyword, p * 10)
      invariant newsList == Crawl(web, e, page)
    {
      var url, collected := FetchPage(web, encodedKeyword, page, newsList);
      requested := requested + [url];
      newsList := collected;
    }
  }

  /** One pass of the page loop: request page `page` and append the records of its containers. */
  method FetchPage(web: map<string, Page>, encodedKeyword: string, page: nat, newsList: seq<NewsRecord>)
    returns (url: string, collected: seq<NewsRecord>)
    requires newsList == Crawl(web, GoogleSearch(encodedKeyword), page)
    ensures url == SearchUrl(encodedKeyword, page * 10)
    ensures collected == Crawl(web, GoogleSearch(encodedKeyword), page + 1)
  {
    var startIndex := page * 10;
    url := SearchUrl(encodedKeyword, startIndex);
    collected := newsList;
    if url in web {
      var newsItems := SelectNewsItems(web[url]);
      collected := CollectRecords(newsItems, newsList);
    }
    CrawlPage(web, GoogleSearch(encodedKeyword), page, url, newsList, collected);
  }

  /** The container loop of one page: each container with a title appends its record, in order. */
  method CollectRecords(newsItems: seq<Container>, newsList: seq<NewsRecord>) returns (collected: seq<NewsRecord>)
    ensures collected == newsList + Records(newsItems, Extract)
  {
    collected := newsList;
    for i := 0 to |newsItems|
      invariant collected == newsList + Records(newsItems[..i], Extract)
    {
      var item := newsItems[i];
      CollectedSnoc(newsList, newsItems, Extract, i);
      var newsData := Extract(item);
      if newsData.Some? {
        collected := collected + [newsData.value];
      }
    }
    assert newsItems[..|newsItems|] == newsItems;
  }

  /**
   * The container cascade: `div.SoaBEf`, else `div.vJOb1e`, else
   * `div.mCBkyc.y355M.JQe2Ld.nDgy9d`; the first that selects anything wins.
   */
  method SelectNewsItems(soup: Page) returns (newsItems: seq<Container>)
    ensures newsItems == FirstNonEmpty(soup, ContainerSelectors)
  {
    newsItems := Select(soup, "div.SoaBEf");
    if newsItems == [] {
      newsItems := Select(soup, "div.vJOb1e");
      if newsItems == [] {
        newsItems := Select(soup, "div.mCBkyc.y355M.JQe2Ld.nDgy9d");
      }
    }
    FirstNonEmptyOfThree(soup, "div.SoaBEf", "div.vJOb1e", "div.mCBkyc.y355M.JQe2Ld.nDgy9d");
  }

  /** An exception on one page skips only that page; the pages before and after it still count. */
  lemma FailedPageSkipped(web: map<string, Page>, encodedKeyword: string, pages: nat, p: nat)
    requires p < pages
    ensures Crawl(web - {SearchUrl(encodedKeyword, StartIndex(p))}, GoogleSearch(encodedKeyword), pages)
         == CrawlRange(web, GoogleSearch(encodedKeyword), 0, p)
          + CrawlRange(web, GoogleSearch(encodedKeyword), p + 1, pages)
  {
    hide SearchUrl;
    var e := GoogleSearch(encodedKeyword);
    forall i | 0 <= i < pages && i != p
      ensures e.urlOf(i) != e.urlOf(p)
    {
      PageUrlsDistinct(encodedKeyword, i, p);
    }
    SearchCrawl.FailedPageSkipped(web, e, pages, p);
  }

  /** Different pages of one keyword have different URLs. */
  lemma PageUrlsDistinct(encodedKeyword: string, i: nat, j: nat)
    ensures i != j ==> GoogleSearch(encodedKeyword).urlOf(i) != GoogleSearch(encodedKeyword).urlOf(j)
  {
    hide SearchUrl;
    if GoogleSearch(encodedKeyword).urlOf(i) == GoogleSearch(encodedKeyword).urlOf(j) {
      SearchUrlInjective(encodedKeyword, StartIndex(i), StartIndex(j));
    }
  }

  // ---------------------------------------------------------------------
  // main

  /** All records `main` gathers: both keywords, two pages each, in keyword order. */
  function AllNews(web: map<string, Page>): seq<NewsRecord> {
    Crawl(web, GoogleSearch(EncodedKeywords[0]), PagesPerKeyword)
      + Crawl(web, GoogleSearch(EncodedKeywords[1]), PagesPerKeyword)
  }

  /** The keyword loop of `main`: each keyword's pages, appended in keyword order. */
  method GatherNews(web: map<string, Page>) returns (allNews: seq<NewsRecord>)
    ensures allNews == AllNews(web)
  {
    hide Crawl;
    hide SearchUrl;
    allNews := [];
    for k := 0 to |EncodedKeywords|
      invariant k == 0 ==> allNews == []
      invariant k == 1 ==> allNews == Crawl(web, GoogleSearch(EncodedKeywords[0]), PagesPerKeyword)
      invariant k == 2 ==> allNews == AllNews(web)
    {
      var newsData, _ := GetGoogleNews(EncodedKeywords[k], PagesPerKeyword, web);
      allNews := allNews + newsData;
    }
  }

  /**
   * `main`: crawl both keywords, keep the first record of each title, and
   * save under the dated name. `today` is the date the run reads from the clock.
   */
  method CrawlAndSave(web: map<string, Page>, today: Date, writeOk: bool)
    returns (uniqueNews: seq<NewsRecord>, outcome: SaveOutcome)
    requires today.Valid()
    ensures uniqueNews == Unique(AllNews(web))
    ensures DistinctTitles(uniqueNews) && Titles(uniqueNews) == Titles(AllNews(web))
    ensures outcome == SaveNews(uniqueNews, Some(DatedName(FilePrefix, today)), FilePrefix, today, writeOk)
  {
    var allNews := GatherNews(web);
    uniqueNews := DedupByTitle(allNews);
    outcome := SaveNews(uniqueNews, Some(DatedName(FilePrefix, today)), FilePrefix, today, writeOk);
  }

  /**
   * `save_to_excel(news_data, filename=None)` of this crawler: nothing is
   * written for an empty list, and the default name is `google_ai_news_YYYYMMDD.xlsx`.
   */
  function SaveToExcel(newsData: seq<NewsRecord>, filename: Option<string>, today: Date, writeOk: bool)
    : (r: SaveOutcome)
    requires today.Valid()
    ensures r.NothingToSave? <==> newsData == []
    ensures !r.NothingToSave? && (filename.None? || filename == Some("")) ==>
              r.filename == FilePrefix + Compact(today) + ".xlsx"
  {
    SaveNews(newsData, filename, FilePrefix, today, writeOk)
  }
}
