/**
 * What the two search crawlers have in common: a crawl visits result pages
 * in order, picks each page's containers with a selector cascade, turns each
 * container into at most one record, and appends the records in page order,
 * then container order. A page whose request fails adds nothing.
 */
module SearchCrawl {
  import opened Options
  import opened Substrings
  import opened Markup
  import opened NewsRecords

  /**
   * One search engine as the crawl sees it: the URL requested for the i-th
   * page visited (counting from 0), the container cascade, and the
   * per-container extraction.
   */
  datatype Engine = Engine(urlOf: nat -> string, containerSelectors: seq<Selector>,
                           extract: Container -> Option<NewsRecord>)

  /** A text field: the stripped text of the first matching selector, `정보 없음` without one. */
  function TextField(item: Container, sels: seq<Selector>): (field: string)
    ensures FirstMatch(item, sels).None? ==> field == Unknown
    ensures FirstMatch(item, sels).Some? ==> field == Strip(FirstMatch(item, sels).value.text)
  {
    match FirstMatch(item, sels)
    case None => Unknown
    case Some(e) => Strip(e.text)
  }

  /** The image field: the `src` of the first matching image element, empty without one or without `src`. */
  function ImageField(item: Container, sels: seq<Selector>): (field: string)
    ensures FirstMatch(item, sels).None? ==> field == ""
    ensures FirstMatch(item, sels).Some? ==> field == Attr(FirstMatch(item, sels).value, "src").GetOr("")
  {
    match FirstMatch(item, sels)
    case None => ""
    case Some(img) => Attr(img, "src").GetOr("")
  }

  /** The records of a page's containers, in container order; containers without a record are skipped. */
  function Records(items: seq<Container>, extract: Container -> Option<NewsRecord>): (rs: seq<NewsRecord>)
    ensures |rs| <= |items|
    decreases |items|
  {
    if items == [] then []
    else
      var last := items[|items| - 1];
      Records(items[..|items| - 1], extract) + (if extract(last).Some? then [extract(last).value] else [])
  }

  /** Extending the containers by one extends the records by that container's record, if any. */
  lemma RecordsSnoc(items: seq<Container>, extract: Container -> Option<NewsRecord>, i: nat)
    requires i < |items|
    ensures Records(items[..i + 1], extract)
         == Records(items[..i], extract) + (if extract(items[i]).Some? then [extract(items[i]).value] else [])
  {
    assert items[..i + 1][..i] == items[..i];
  }

  /** One step of a container loop: the records collected so far grow by the next container's record, if any. */
  lemma CollectedSnoc(newsList: seq<NewsRecord>, items: seq<Container>, extract: Container -> Option<NewsRecord>, i: nat)
    requires i < |items|
    ensures extract(items[i]).None? ==>
      newsList + Records(items[..i + 1], extract) == newsList + Records(items[..i], extract)
    ensures extract(items[i]).Some? ==>
      newsList + Records(items[..i + 1], extract) == newsList + Records(items[..i], extract) + [extract(items[i]).value]
  {
    RecordsSnoc(items, extract, i);
  }

  /** The records one request contributes: none when the request failed (no response for the URL). */
  function PageNews(web: map<string, Page>, url: string, e: Engine): seq<NewsRecord> {
    if url in web then Records(FirstNonEmpty(web[url], e.containerSelectors), e.extract) else []
  }

  /** The records of pages `lo` to `hi - 1`, concatenated in page order. */
  function CrawlRange(web: map<string, Page>, e: Engine, lo: nat, hi: nat): seq<NewsRecord>
    decreases hi
  {
    if hi <= lo then [] else CrawlRange(web, e, lo, hi - 1) + PageNews(web, e.urlOf(hi - 1), e)
  }

  /** A crawl of the first `pages` pages. */
  function Crawl(web: map<string, Page>, e: Engine, pages: nat): seq<NewsRecord> {
    CrawlRange(web, e, 0, pages)
  }

  /** Crawling one more page appends that page's records. */
  lemma CrawlStep(web: map<string, Page>, e: Engine, n: nat)
    ensures Crawl(web, e, n + 1) == Crawl(web, e, n) + PageNews(web, e.urlOf(n), e)
  {
  }

  /**
   * One step of a page loop: after the `n` pages so far, the page at the
   * `n`-th URL adds the records of its containers, or nothing when its
   * request failed.
   */
  lemma CrawlPage(web: map<string, Page>, e: Engine, n: nat, url: string,
                  newsList: seq<NewsRecord>, collected: seq<NewsRecord>)
    requires e.urlOf(n) == url && newsList == Crawl(web, e, n)
    requires url in web ==> collected == newsList + Records(FirstNonEmpty(web[url], e.containerSelectors), e.extract)
    requires url !in web ==> collected == newsList
    ensures collected == Crawl(web, e, n + 1)
  {
    CrawlStep(web, e, n);
  }

  /** A crawl over consecutive page ranges is the concatenation of the crawls over each range. */
  lemma {:induction false} CrawlRangeSplit(web: map<string, Page>, e: Engine, lo: nat, mid: nat, hi: nat)
    requires lo <= mid <= hi
    ensures CrawlRange(web, e, lo, hi) == CrawlRange(web, e, lo, mid) + CrawlRange(web, e, mid, hi)
    decreases hi
  {
    if hi > mid {
      CrawlRangeSplit(web, e, lo, mid, hi - 1);
    }
  }

  /** Records gathered from earlier pages are kept whatever the later pages bring. */
  lemma CrawlKeepsEarlierPages(web: map<string, Page>, e: Engine, m: nat, n: nat)
    requires m <= n
    ensures Crawl(web, e, m) <= Crawl(web, e, n)
  {
    CrawlRangeSplit(web, e, 0, m, n);
  }

  /** Pages whose URLs the changed response does not concern contribute the same records. */
  lemma {:induction false} CrawlRangeIgnores(web: map<string, Page>, e: Engine, lo: nat, hi: nat, u: string)
    requires forall i :: lo <= i < hi ==> e.urlOf(i) != u
    ensures CrawlRange(web - {u}, e, lo, hi) == CrawlRange(web, e, lo, hi)
    decreases hi
  {
    if hi > lo {
      CrawlRangeIgnores(web, e, lo, hi - 1, u);
    }
  }

  /**
   * A failed request skips only its own page: when the request for page `p`
   * fails, the crawl yields exactly the records of the pages before it
   * followed by those of the pages after it.
   */
  lemma FailedPageSkipped(web: map<string, Page>, e: Engine, n: nat, p: nat)
    requires p < n
    requires forall i :: 0 <= i < n && i != p ==> e.urlOf(i) != e.urlOf(p)
    ensures Crawl(web - {e.urlOf(p)}, e, n) == CrawlRange(web, e, 0, p) + CrawlRange(web, e, p + 1, n)
  {
    var u := e.urlOf(p);
    CrawlRangeSplit(web - {u}, e, 0, p, n);
    CrawlRangeSplit(web - {u}, e, p, p + 1, n);
    CrawlRangeIgnores(web, e, 0, p, u);
    CrawlRangeIgnores(web, e, p + 1, n, u);
    DroppedPageEmpty(web, e, p);
    hide CrawlRange;
    assert [] + CrawlRange(web, e, p + 1, n) == CrawlRange(web, e, p + 1, n);
  }

  /** A page whose response is gone contributes nothing. */
  lemma DroppedPageEmpty(web: map<string, Page>, e: Engine, p: nat)
    ensures CrawlRange(web - {e.urlOf(p)}, e, p, p + 1) == []
  {
    assert CrawlRange(web - {e.urlOf(p)}, e, p, p) == [];
  }

  /** Every record comes from some container through the engine's extraction. */
  lemma {:induction false} RecordsExtracted(items: seq<Container>, extract: Container -> Option<NewsRecord>, k: nat)
    requires k < |Records(items, extract)|
    ensures exists i :: 0 <= i < |items| && extract(items[i]) == Some(Records(items, extract)[k])
    decreases |items|
  {
    var init := items[..|items| - 1];
    var last := items[|items| - 1];
    if k < |Records(init, extract)| {
      RecordsExtracted(init, extract, k);
      var i :| 0 <= i < |init| && extract(init[i]) == Some(Records(init, extract)[k]);
      assert items[i] == init[i];
    } else {
      assert extract(last) == Some(Records(items, extract)[k]);
    }
  }

  /** A container the extraction accepts contributes its record: nothing accepted is dropped. */
  lemma {:induction false} RecordsComplete(items: seq<Container>, extract: Container -> Option<NewsRecord>, i: nat)
    requires i < |items| && extract(items[i]).Some?
    ensures extract(items[i]).value in Records(items, extract)
    decreases |items|
  {
    if i < |items| - 1 {
      RecordsComplete(items[..|items| - 1], extract, i);
    }
  }

  /** The number of pages `range` visits for a page count that may be negative. */
  function PagesAttempted(pages: int): nat {
    if pages < 0 then 0 else pages
  }
}
