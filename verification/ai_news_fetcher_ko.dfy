/**
 * The Korean NewsAPI fetcher (`ai_news_fetcher_ko.py`): Korean AI articles
 * are written to `ai_news_ko_YYYYMMDD.xlsx`, with the source names in a
 * `출처` column and the NewsAPI fields under their Korean names.
 */
module AiNewsFetcherKo {
  import opened Options
  import opened Dates
  import opened ArticleTable

  /** The column that receives the source names. */
  const NameColumn := "출처"

  /** The workbook name for a day: `ai_news_ko_` and the day as `YYYYMMDD`, which reads back as that day. */
  function Filename(today: Date): (name: string)
    requires today.Valid()
    ensures |name| == 24 && name[..11] == "ai_news_ko_" && name[19..] == ".xlsx"
    ensures ParseCompact(name[11..19]) == Some(today)
  {
    var name := "ai_news_ko_" + Compact(today) + ".xlsx";
    assert name[11..19] == Compact(today);
    ParseCompactOfCompact(today);
    name
  }

  /** The columns `save_to_excel` writes: the flattened table with each column under its Korean name. */
  ghost function KoreanTable(articles: seq<Article>): (cols: seq<Column>)
    ensures |cols| == |Flattened(Frame(articles), NameColumn)|
    ensures forall j :: 0 <= j < |cols| ==>
      var c := Flattened(Frame(articles), NameColumn)[j];
      cols[j] == Column(KoreanName(c.header), c.cells)
  {
    KoreanRenamed(Flattened(Frame(articles), NameColumn));
    Renamed(Flattened(Frame(articles), NameColumn), KoreanColumns)
  }

  /**
   * `save_to_excel`: nothing is written for no articles; otherwise `source`
   * is flattened into `출처`, each present English column is renamed, and
   * the table goes to `filename` when the write succeeds.
   */
  method SaveToExcel(articles: seq<Article>, filename: string, writeOk: bool) returns (written: Option<Sheet>)
    ensures written.Some? <==> articles != [] && writeOk
    ensures written.Some? ==> written.value == Sheet(filename, KoreanTable(articles))
    ensures written.Some? ==> Rectangular(written.value.columns, |articles|)
  {
    if articles == [] {
      return None;
    }
    var df := new DataFrame(articles);
    df.FlattenSource(NameColumn);
    df.RenameColumns(KoreanColumns);
    if writeOk {
      written := Some(Sheet(filename, df.columns));
    } else {
      written := None;
    }
  }

  /** `main`: the fetched articles, when there are any, are saved under the day's file name. */
  method FetchAndSave(apiKey: Option<string>, response: Option<Response>, today: Date, writeOk: bool)
    returns (written: Option<Sheet>)
    requires today.Valid()
    ensures written.Some? <==> FetchArticles(apiKey, response).GetOr([]) != [] && writeOk
    ensures written.Some? ==>
      written.value == Sheet(Filename(today), KoreanTable(FetchArticles(apiKey, response).value))
  {
    var articles := FetchArticles(apiKey, response);
    if articles.Some? && articles.value != [] {
      written := SaveToExcel(articles.value, Filename(today), writeOk);
    } else {
      written := None;
    }
  }

  /** The Korean table never has a `source` column. */
  lemma KoreanTableNoSource(articles: seq<Article>)
    ensures "source" !in Labels(KoreanTable(articles))
  {
    var flat := Flattened(Frame(articles), NameColumn);
    var cols := KoreanTable(articles);
    FlattenedSource(Frame(articles), NameColumn);
    forall j | 0 <= j < |cols|
      ensures cols[j].header != "source"
    {
      assert Labels(flat)[j] == flat[j].header;
      KoreanNameOfSource(flat[j].header);
    }
  }

  /** The Korean table holds the source names under `출처` whenever the articles had a `source`. */
  lemma KoreanTableNames(articles: seq<Article>)
    requires "source" in Labels(Frame(articles))
    ensures NameColumn in Labels(KoreanTable(articles))
  {
    var flat := Flattened(Frame(articles), NameColumn);
    var cols := KoreanTable(articles);
    var frame := Frame(articles);
    var names := Column(NameColumn, SourceNames(frame[Find(frame, "source")].cells));
    FlattenedKeeps(frame, NameColumn, names);
    var j :| 0 <= j < |flat| && flat[j] == names;
    KoreanNameOfSource(NameColumn);
    assert cols[j].header == NameColumn;
    assert Labels(cols)[j] == NameColumn;
  }

  /** No Korean name is `source`, and `출처` keeps its name. */
  lemma KoreanNameOfSource(header: string)
    ensures KoreanName(header) == "source" ==> header == "source"
    ensures KoreanName(NameColumn) == NameColumn
  {
    assert NameColumn[0] != 't' && NameColumn[0] != 'a' && NameColumn[0] != 'p';
    assert NameColumn[0] != 'd' && NameColumn[0] != 'c' && NameColumn[0] != 'u';
    assert "source"[0] == 's';
  }
}
