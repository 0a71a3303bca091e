/**
 * The record both search crawlers produce, the title-keyed de-duplication
 * their `main` functions run, and the guard and file naming of their
 * `save_to_excel`.
 */
module NewsRecords {
  import opened Options
  import opened Dates

  /** The placeholder for a field the page does not provide ("no information"). */
  const Unknown: string := "정보 없음"

  /** One collected article: the dictionary keys are 제목, 링크, 출처, 설명, 발행일, 이미지URL. */
  datatype NewsRecord = NewsRecord(title: string, link: string, source: string,
                                   summary: string, published: string, imageUrl: string)

  /** The spreadsheet row of a record: one column per dictionary key. */
  function ToRow(r: NewsRecord): map<string, string> {
    map["제목" := r.title, "링크" := r.link, "출처" := r.source,
        "설명" := r.summary, "발행일" := r.published, "이미지URL" := r.imageUrl]
  }

  // ---------------------------------------------------------------------
  // De-duplication by title

  function Titles(s: seq<NewsRecord>): set<string> {
    set i | 0 <= i < |s| :: s[i].title
  }

  lemma TitlesSnoc(s: seq<NewsRecord>, r: NewsRecord)
    ensures Titles(s + [r]) == Titles(s) + {r.title}
  {
    var t := s + [r];
    assert forall i :: 0 <= i < |s| ==> t[i] == s[i];
    assert t[|s|] == r;
  }

  predicate DistinctTitles(s: seq<NewsRecord>) {
    forall i, j :: 0 <= i < j < |s| ==> s[i].title != s[j].title
  }

  /**
   * The list the de-duplication loop leaves behind: scanning left to right,
   * a record is kept when no record kept before it has the same title.
   */
  function Unique(s: seq<NewsRecord>): seq<NewsRecord>
    decreases |s|
  {
    if s == [] then []
    else
      var u := Unique(s[..|s| - 1]);
      if s[|s| - 1].title in Titles(u) then u else u + [s[|s| - 1]]
  }

  /** The position of the first record with title `t`. */
  function FirstIndex(s: seq<NewsRecord>, t: string): (i: nat)
    requires t in Titles(s)
    ensures i < |s| && s[i].title == t
    ensures forall j :: 0 <= j < i ==> s[j].title != t
    decreases |s|
  {
    var p := s[..|s| - 1];
    if t in Titles(p) then
      var i := FirstIndex(p, t);
      assert s[i] == p[i];
      i
    else
      assert forall j :: 0 <= j < |p| ==> s[j] == p[j] && p[j].title in Titles(p);
      |s| - 1
  }

  lemma TitlesPrefix(s: seq<NewsRecord>)
    requires s != []
    ensures Titles(s) == Titles(s[..|s| - 1]) + {s[|s| - 1].title}
  {
    assert s == s[..|s| - 1] + [s[|s| - 1]];
    TitlesSnoc(s[..|s| - 1], s[|s| - 1]);
  }

  /** De-duplication loses no title: every title of the input is still present. */
  lemma {:induction false} UniqueTitles(s: seq<NewsRecord>)
    ensures Titles(Unique(s)) == Titles(s)
    decreases |s|
  {
    if s != [] {
      var p := s[..|s| - 1];
      UniqueTitles(p);
      TitlesPrefix(s);
      TitlesSnoc(Unique(p), s[|s| - 1]);
    }
  }

  /** No two records of the result share a title. */
  lemma {:induction false} UniqueDistinct(s: seq<NewsRecord>)
    ensures DistinctTitles(Unique(s))
    decreases |s|
  {
    if s != [] {
      var p := s[..|s| - 1];
      var u := Unique(p);
      UniqueDistinct(p);
      if s[|s| - 1].title !in Titles(u) {
        var v := u + [s[|s| - 1]];
        forall i, j | 0 <= i < j < |v| ensures v[i].title != v[j].title {
          if j == |u| {
            assert v[i] == u[i];
          } else {
            assert v[i] == u[i] && v[j] == u[j];
          }
        }
      }
    }
  }

  /**
   * Order preservation: the k-th record kept is the first record of its
   * title in the input, and kept records appear in the order of those
   * first occurrences.
   */
  lemma {:induction false} UniqueKeepsFirst(s: seq<NewsRecord>, k: nat)
    requires k < |Unique(s)|
    ensures Unique(s)[k].title in Titles(s)
    ensures Unique(s)[k] == s[FirstIndex(s, Unique(s)[k].title)]
    ensures forall m :: 0 <= m < k ==>
              (Unique(s)[m].title in Titles(s) &&
               FirstIndex(s, Unique(s)[m].title) < FirstIndex(s, Unique(s)[k].title))
    decreases |s|
  {
    var p := s[..|s| - 1];
    var u := Unique(p);
    var last := s[|s| - 1];
    UniqueTitles(p);
    TitlesPrefix(s);
    if last.title in Titles(u) || k < |u| {
      UniqueKeepsFirst(p, k);
      assert Unique(s)[k] == u[k];
      forall m | 0 <= m < k
        ensures Unique(s)[m].title in Titles(s) &&
                FirstIndex(s, Unique(s)[m].title) < FirstIndex(s, Unique(s)[k].title)
      {
        assert Unique(s)[m] == u[m];
        assert FirstIndex(s, u[m].title) == FirstIndex(p, u[m].title);
      }
      assert FirstIndex(s, u[k].title) == FirstIndex(p, u[k].title);
    } else {
      assert Unique(s)[k] == last;
      assert FirstIndex(s, last.title) == |s| - 1;
      forall m | 0 <= m < k
        ensures Unique(s)[m].title in Titles(s) &&
                FirstIndex(s, Unique(s)[m].title) < FirstIndex(s, Unique(s)[k].title)
      {
        assert Unique(s)[m] == u[m];
        assert u[m].title in Titles(u);
        assert FirstIndex(s, u[m].title) == FirstIndex(p, u[m].title);
      }
    }
  }

  /** A list whose titles are already distinct is left unchanged. */
  lemma {:induction false} UniqueOfDistinct(s: seq<NewsRecord>)
    requires DistinctTitles(s)
    ensures Unique(s) == s
    decreases |s|
  {
    if s != [] {
      var p := s[..|s| - 1];
      assert DistinctTitles(p);
      UniqueOfDistinct(p);
    }
  }

  /** Running the de-duplication twice gives the same list as running it once. */
  lemma UniqueIdempotent(s: seq<NewsRecord>)
    ensures Unique(Unique(s)) == Unique(s)
  {
    UniqueDistinct(s);
    UniqueOfDistinct(Unique(s));
  }

  /**
   * The loop of `main`: a record is appended when its title is not yet in
   * the set of seen titles, which then takes it in.
   */
  method DedupByTitle(news: seq<NewsRecord>) returns (unique: seq<NewsRecord>)
    ensures unique == Unique(news)
    ensures DistinctTitles(unique) && Titles(unique) == Titles(news)
  {
    var uniqueTitles: set<string> := {};
    unique := [];
    for i := 0 to |news|
      invariant unique == Unique(news[..i])
      invariant uniqueTitles == Titles(unique)
    {
      assert news[..i + 1][..i] == news[..i];
      if news[i].title !in uniqueTitles {
        TitlesSnoc(unique, news[i]);
        uniqueTitles := uniqueTitles + {news[i].title};
        unique := unique + [news[i]];
      }
    }
    assert news[..|news|] == news;
    UniqueDistinct(news);
    UniqueTitles(news);
  }

  // ---------------------------------------------------------------------
  // Saving to a spreadsheet

  /** What a call of `save_to_excel` did; `Saved?` is the boolean it returns. */
  datatype SaveOutcome =
    | NothingToSave
    | Saved(filename: string, rows: seq<map<string, string>>)
    | WriteFailed(filename: string)

  /** `{prefix}{YYYYMMDD}.xlsx`. */
  function DatedName(prefix: string, today: Date): (name: string)
    requires today.Valid()
    ensures |name| == |prefix| + 13
  {
    prefix + Compact(today) + ".xlsx"
  }

  /** The date stamp of a dated name reads back as the date it was made on. */
  lemma DatedNameReadsBack(prefix: string, today: Date)
    requires today.Valid()
    ensures DatedName(prefix, today)[..|prefix|] == prefix
    ensures DatedName(prefix, today)[|prefix| + 8..] == ".xlsx"
    ensures ParseCompact(DatedName(prefix, today)[|prefix|..|prefix| + 8]) == Some(today)
  {
    var name := DatedName(prefix, today);
    assert name[|prefix|..|prefix| + 8] == Compact(today);
    ParseCompactOfCompact(today);
  }

  /**
   * `save_to_excel(news_data, filename)`: nothing is written for an empty
   * list; a missing or empty file name becomes the dated default; the
   * spreadsheet holds one row per record, in order, unless the write fails.
   */
  function SaveNews(news: seq<NewsRecord>, filename: Option<string>, prefix: string,
                    today: Date, writeOk: bool): (r: SaveOutcome)
    requires today.Valid()
    ensures r.NothingToSave? <==> news == []
    ensures !r.NothingToSave? ==>
              r.filename == (if filename.Some? && filename.value != "" then filename.value
                             else DatedName(prefix, today))
    ensures !r.NothingToSave? ==> (r.Saved? <==> writeOk)
    ensures r.Saved? ==> |r.rows| == |news| && forall i :: 0 <= i < |news| ==> r.rows[i] == ToRow(news[i])
  {
    if news == [] then NothingToSave
    else
      var name := if filename.Some? && filename.value != "" then filename.value else DatedName(prefix, today);
      if writeOk then Saved(name, seq(|news|, i requires 0 <= i < |news| => ToRow(news[i])))
      else WriteFailed(name)
  }
}
