/**
 * The English NewsAPI fetcher (`ai_news_fetcher.py`): yesterday's AI
 * articles are fetched and written to `ai_news_YYYYMMDD.xlsx`, with the
 * `source` dict flattened into a `source_name` column. The request itself
 * is an input (`FetchArticles` in `ArticleTable`); the workbook write is the
 * `Sheet` it receives, and whether it succeeds is an input too.
 */
module AiNewsFetcher {
  import opened Options
  import opened Dates
  import opened ArticleTable

  /** The column that receives the source names. */
  const NameColumn := "source_name"

  /** The workbook name for a day: `ai_news_` and the day as `YYYYMMDD`, which reads back as that day. */
  function Filename(today: Date): (name: string)
    requires today.Valid()
    ensures |name| == 21 && name[..8] == "ai_news_" && name[16..] == ".xlsx"
    ensures ParseCompact(name[8..16]) == Some(today)
  {
    var name := "ai_news_" + Compact(today) + ".xlsx";
    assert name[8..16] == Compact(today);
    ParseCompactOfCompact(today);
    name
  }

  /**
   * `save_to_excel`: nothing is written for no articles; otherwise the table
   * of the articles, with `source` flattened into `source_name`, goes to
   * `filename` when the write succeeds (`writeOk`; a failure is caught and
   * only reported). The written table has no `source` column and one cell
   * per article in every column.
   */
  method SaveToExcel(articles: seq<Article>, filename: string, writeOk: bool) returns (written: Option<Sheet>)
    ensures written.Some? <==> articles != [] && writeOk
    ensures written.Some? ==> written.value == Sheet(filename, Flattened(Frame(articles), NameColumn))
    ensures written.Some? ==> "source" !in Labels(written.value.columns)
    ensures written.Some? ==> Rectangular(written.value.columns, |articles|)
  {
    if articles == [] {
      return None;
    }
    var df := new DataFrame(articles);
    df.FlattenSource(NameColumn);
    FlattenedSource(Frame(articles), NameColumn);
    if writeOk {
      written := Some(Sheet(filename, df.columns));
    } else {
      written := None;
    }
  }

  /**
   * `main`: the fetched articles, when there are any, are saved under the
   * day's file name; a missing key, a failed request or an empty answer
   * writes nothing.
   */
  method FetchAndSave(apiKey: Option<string>, response: Option<Response>, today: Date, writeOk: bool)
    returns (written: Option<Sheet>)
    requires today.Valid()
    ensures written.Some? <==> FetchArticles(apiKey, response).GetOr([]) != [] && writeOk
    ensures written.Some? ==>
      written.value == Sheet(Filename(today), Flattened(Frame(FetchArticles(apiKey, response).value), NameColumn))
  {
    var articles := FetchArticles(apiKey, response);
    if articles.Some? && articles.value != [] {
      written := SaveToExcel(articles.value, Filename(today), writeOk);
    } else {
      written := None;
    }
  }
}
