/**
 * `naver_ai_news_crawler.py`: Naver News search results for a keyword, ten
 * per page with 1-based offsets, turned into news records; `main` crawls two
 * keywords, de-duplicates by title and saves the spreadsheet.
 */
module NaverCrawler {
  import opened Options
  import opened Decimal
  import opened Dates
  import opened Substrings
  import opened Markup
  import opened NewsRecords
  import opened SearchCrawl

  const ContainerSelectors: seq<Selector> := [".list_news .bx", "div.group_news > ul.list_news > li", "li.bx"]
  const TitleSelectors: seq<Selector> := ["a.news_tit", ".news_wrap .news_tit", ".news_area .news_tit"]
  const PressSelectors: seq<Selector> := [".press", ".info_group .press"]
  const SummarySelectors: seq<Selector> := [".dsc_wrap", ".news_dsc", ".news_info .api_txt_lines"]
  const DateSelectors: seq<Selector> := [".info_group .info", "span.info"]
  const ImageSelectors: seq<Selector> := ["img.thumb", ".dsc_thumb img"]

  /** The file name prefix of the saved spreadsheet. */
  const FilePrefix: string := "naver_ai_news_"

  const Keywords: seq<string> := ["인공지능", "AI"]
  /** `urllib.parse.quote` of each keyword: the UTF-8 bytes of the Hangul escaped, ASCII letters kept. */
  const EncodedKeywords: seq<string> := ["%EC%9D%B8%EA%B3%B5%EC%A7%80%EB%8A%A5", "AI"]
  const PagesPerKeyword: nat := 2

  // ---------------------------------------------------------------------
  // Paging

  /** Page `page`, counted from 1, starts at result `(page - 1) * 10 + 1`: offsets 1, 11, 21, ... */
  function StartIndex(page: nat): nat
    requires page >= 1
  {
    (page - 1) * 10 + 1
  }

  function SearchUrl(encodedKeyword: string, start: nat): string {
    "https://search.naver.com/search.naver?where=news&sm=tab_jum&query=" + encodedKeyword
      + "&start=" + NatToString(start)
  }

  /** Different start offsets give different URLs, so no two pages of a crawl share a response. */
  lemma SearchUrlInjective(encodedKeyword: string, a: nat, b: nat)
    requires SearchUrl(encodedKeyword, a) == SearchUrl(encodedKeyword, b)
    ensures a == b
  {
    var front := "https://search.naver.com/search.naver?where=news&sm=tab_jum&query=" + encodedKeyword + "&start=";
    assert SearchUrl(encodedKeyword, a)[|front|..] == NatToString(a);
    assert SearchUrl(encodedKeyword, b)[|front|..] == NatToString(b);
    NatToStringInjective(a, b);
  }

  // ---------------------------------------------------------------------
  // One result container

  /** The link field: the `href` of the title element itself, empty without one. */
  function LinkField(titleElem: Element): string {
    Attr(titleElem, "href").GetOr("")
  }

  /**
   * The record read from one container. A container yields a record exactly
   * when one of the three title selectors matches; the title is that
   * element's stripped text and the link its `href`; press, summary and
   * date are the stripped text of their first matching selector and the
   * image its `src`, and fields that cannot be resolved take their
   * placeholders.
   */
  function Extract(item: Container): (r: Option<NewsRecord>)
    ensures r.Some? <==> FirstMatch(item, TitleSelectors).Some?
    ensures r.Some? ==> r.value.title == Strip(FirstMatch(item, TitleSelectors).value.text)
    ensures r.Some? ==> r.value.link == Attr(FirstMatch(item, TitleSelectors).value, "href").GetOr("")
    ensures r.Some? ==> (r.value.link == "" <==> Attr(FirstMatch(item, TitleSelectors).value, "href") in {None, Some("")})
    ensures r.Some? && FirstMatch(item, PressSelectors).None? ==> r.value.source == Unknown
    ensures r.Some? && FirstMatch(item, PressSelectors).Some? ==>
              r.value.source == Strip(FirstMatch(item, PressSelectors).value.text)
    ensures r.Some? && FirstMatch(item, SummarySelectors).None? ==> r.value.summary == Unknown
    ensures r.Some? && FirstMatch(item, SummarySelectors).Some? ==>
              r.value.summary == Strip(FirstMatch(item, SummarySelectors).value.text)
    ensures r.Some? && FirstMatch(item, DateSelectors).None? ==> r.value.published == Unknown
    ensures r.Some? && FirstMatch(item, DateSelectors).Some? ==>
              r.value.published == Strip(FirstMatch(item, DateSelectors).value.text)
    ensures r.Some? && FirstMatch(item, ImageSelectors).None? ==> r.value.imageUrl == ""
    ensures r.Some? && FirstMatch(item, ImageSelectors).Some? ==>
              r.value.imageUrl == Attr(FirstMatch(item, ImageSelectors).value, "src").GetOr("")
  {
    match FirstMatch(item, TitleSelectors)
    case None => None
    case Some(titleElem) =>
      Some(NewsRecord(
        title := Strip(titleElem.text),
        link := LinkField(titleElem),
        source := TextField(item, PressSelectors),
        summary := TextField(item, SummarySelectors),
        published := TextField(item, DateSelectors),
        imageUrl := ImageField(item, ImageSelectors)))
  }

  /** Naver News search for one (already URL-encoded) keyword; the crawl's `i`-th page is page `i + 1`. */
  function NaverSearch(encodedKeyword: string): Engine {
    Engine((i: nat) => SearchUrl(encodedKeyword, StartIndex(i + 1)), ContainerSelectors, Extract)
  }

  // ---------------------------------------------------------------------
  // The crawl

  /** Page `page` of the crawl is requested at offset `(page - 1) * 10 + 1`. */
  lemma PageUrl(encodedKeyword: string, page: nat)
    requires page >= 1
    ensures NaverSearch(encodedKeyword).urlOf(page - 1) == SearchUrl(encodedKeyword, (page - 1) * 10 + 1)
  {
    hide SearchUrl;
    assert StartIndex(page - 1 + 1) == (page - 1) * 10 + 1;
  }

  /**
   * `get_naver_news(keyword, pages)`: requests pages `1 .. pages` at offsets
   * `1, 11, 21, ...` (page `i + 1` is `requested[i]`); each page's containers come from the selector cascade,
   * each container with a title adds its record, in page order and then
   * container order; a failed request adds nothing and the crawl goes on.
   */
  method GetNaverNews(encodedKeyword: string, pages: int, web: map<string, Page>)
    returns (newsList: seq<NewsRecord>, requested: seq<string>)
    ensures |requested| == PagesAttempted(pages)
    ensures forall i :: 0 <= i < |requested| ==> requested[i] == SearchUrl(encodedKeyword, i * 10 + 1)
    ensures newsList == Crawl(web, NaverSearch(encodedKeyword), PagesAttempted(pages))
  {
    ghost var e := NaverSearch(encodedKeyword);
    newsList := [];
    requested := [];
    for page := 1 to PagesAttempted(pages) + 1
      invariant |requested| == page - 1
      invariant forall i :: 0 <= i < page - 1 ==> requested[i] == SearchUrl(encodedKeyword, i * 10 + 1)
      invariant newsList == Crawl(web, e, page - 1)
    {
      var url, collected := FetchPage(web, encodedKeyword, page, newsList);
      requested := requested + [url];
      newsList := collected;
    }
  }

  /** One pass of the page loop: request page `page` and append the records of its containers. */
  method FetchPage(web: map<string, Page>, encodedKeyword: string, page: nat, newsList: seq<NewsRecord>)
    returns (url: string, collected: seq<NewsRecord>)
    requires page >= 1 && newsList == Crawl(web, NaverSearch(encodedKeyword), page - 1)
    ensures url == SearchUrl(encodedKeyword, (page - 1) * 10 + 1)
    ensures collected == Crawl(web, NaverSearch(encodedKeyword), page)
  {
    var startIndex := (page - 1) * 10 + 1;
    url := SearchUrl(encodedKeyword, startIndex);
    collected := newsList;
    if url in web {
      var newsItems := SelectNewsItems(web[url]);
      collected := CollectRecords(newsItems, newsList);
    }
    PageUrl(encodedKeyword, page);
    CrawlPage(web, NaverSearch(encodedKeyword), page - 1, url, newsList, collected);
  }

  /**
   * The container cascade: `.list_news .bx`, else
   * `div.group_news > ul.list_news > li`, else `li.bx`.
   */
  method SelectNewsItems(soup: Page) returns (newsItems: seq<Container>)
    ensures newsItems == FirstNonEmpty(soup, ContainerSelectors)
  {
    newsItems := Select(soup, ".list_news .bx");
    if newsItems == [] {
      newsItems := Select(soup, "div.group_news > ul.list_news > li");
      if newsItems == [] {
        newsItems := Select(soup, "li.bx");
      }
    }
    FirstNonEmptyOfThree(soup, ".list_news .bx", "div.group_news > ul.list_news > li", "li.bx");
  }

  /** The container loop of one page: each container with a title appends its record, in order. */
  method CollectRecords(newsItems: seq<Container>, newsList: seq<NewsRecord>) returns (collected: seq<NewsRecord>)
    ensures collected == newsList + Records(newsItems, Extract)
  {
    collected := newsList;
    for i := 0 to |newsItems|
      invariant collected == newsList + Records(newsItems[..i], Extract)
    {
      var item := newsItems[i];
      CollectedSnoc(newsList, newsItems, Extract, i);
      var newsData := Extract(item);
      if newsData.Some? {
        collected := collected + [newsData.value];
      }
    }
    assert newsItems[..|newsItems|] == newsItems;
  }

  /** An exception on one page skips only that page; the pages before and after it still count. */
  lemma FailedPageSkipped(web: map<string, Page>, encodedKeyword: string, pages: nat, p: nat)
    requires 1 <= p <= pages
    ensures Crawl(web - {SearchUrl(encodedKeyword, StartIndex(p))}, NaverSearch(encodedKeyword), pages)
         == CrawlRange(web, NaverSearch(encodedKeyword), 0, p - 1)
          + CrawlRange(web, NaverSearch(encodedKeyword), p, pages)
  {
    hide SearchUrl;
    var e := NaverSearch(encodedKeyword);
    forall i | 0 <= i < pages && i != p - 1
      ensures e.urlOf(i) != e.urlOf(p - 1)
    {
      PageUrlsDistinct(encodedKeyword, i, p - 1);
    }
    SearchCrawl.FailedPageSkipped(web, e, pages, p - 1);
  }

  /** Different pages of one keyword have different URLs. */
  lemma PageUrlsDistinct(encodedKeyword: string, i: nat, j: nat)
    ensures i != j ==> NaverSearch(encodedKeyword).urlOf(i) != NaverSearch(encodedKeyword).urlOf(j)
  {
    hide SearchUrl;
    if NaverSearch(encodedKeyword).urlOf(i) == NaverSearch(encodedKeyword).urlOf(j) {
      SearchUrlInjective(encodedKeyword, StartIndex(i + 1), StartIndex(j + 1));
    }
  }

  // ---------------------------------------------------------------------
  // main

  /** All records `main` gathers: both keywords, two pages each, in keyword order. */
  function AllNews(web: map<string, Page>): seq<NewsRecord> {
    Crawl(web, NaverSearch(EncodedKeywords[0]), PagesPerKeyword)
      + Crawl(web, NaverSearch(EncodedKeywords[1]), PagesPerKeyword)
  }

  /** The keyword loop of `main`: each keyword's pages, appended in keyword order. */
  method GatherNews(web: map<string, Page>) returns (allNews: seq<NewsRecord>)
    ensures allNews == AllNews(web)
  {
    hide Crawl;
    hide SearchUrl;
    allNews := [];
    for k := 0 to |EncodedKeywords|
      invariant k == 0 ==> allNews == []
      invariant k == 1 ==> allNews == Crawl(web, NaverSearch(EncodedKeywords[0]), PagesPerKeyword)
      invariant k == 2 ==> allNews == AllNews(web)
    {
      var newsData, _ := GetNaverNews(EncodedKeywords[k], PagesPerKeyword, web);
      allNews := allNews + newsData;
    }
  }

  /**
   * `main`: crawl both keywords, keep the first record of each title, and
   * save under the dated name. `today` is the date the run reads from the clock.
   */
  method CrawlAndSave(web: map<string, Page>, today: Date, writeOk: bool)
    returns (uniqueNews: seq<NewsRecord>, outcome: SaveOutcome)
    requires today.Valid()
    ensures uniqueNews == Unique(AllNews(web))
    ensures DistinctTitles(uniqueNews) && Titles(uniqueNews) == Titles(AllNews(web))
    ensures outcome == SaveNews(uniqueNews, Some(DatedName(FilePrefix, today)), FilePrefix, today, writeOk)
  {
    var allNews := GatherNews(web);
    uniqueNews := DedupByTitle(allNews);
    outcome := SaveNews(uniqueNews, Some(DatedName(FilePrefix, today)), FilePrefix, today, writeOk);
  }

  /**
   * `save_to_excel(news_data, filename=None)` of this crawler: nothing is
   * written for an empty list, and the default name is `naver_ai_news_YYYYMMDD.xlsx`.
   */
  function SaveToExcel(newsData: seq<NewsRecord>, filename: Option<string>, today: Date, writeOk: bool)
    : (r: SaveOutcome)
    requires today.Valid()
    ensures r.NothingToSave? <==> newsData == []
    ensures !r.NothingToSave? && (filename.None? || filename == Some("")) ==>
              r.filename == FilePrefix + Compact(today) + ".xlsx"
  {
    SaveNews(newsData, filename, FilePrefix, today, writeOk)
  }
}
