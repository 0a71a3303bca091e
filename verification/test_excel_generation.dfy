/**
 * The Excel generation check (`test_excel_generation.py`): three sample
 * articles are written to `ai_news_test_YYYYMMDD.xlsx`, in Korean (the
 * default) or, given the argument `en`, in English. The language decides
 * the name of the source column and whether the English fields are renamed.
 */
module TestExcelGeneration {
  import opened Options
  import opened Dates
  import opened ArticleTable
  import AiNewsFetcher
  import AiNewsFetcherKo

  /** The keys every sample has, in their order. */
  const SampleKeys: seq<string> := ["source", "author", "title", "description", "url", "urlToImage", "publishedAt", "content"]

  /** A sample article: the NewsAPI fields in `SampleKeys` order, the link and image numbered `n`. */
  function Sample(id: string, name: string, author: string, title: string, description: string,
                  n: string, publishedAt: string, content: string): (a: Article)
    ensures KeysOf(a) == SampleKeys
  {
    [
      ("source", Record(map["id" := Text(id), "name" := Text(name)])),
      ("author", Text(author)),
      ("title", Text(title)),
      ("description", Text(description)),
      ("url", Text("https://example.com/ai-news-" + n)),
      ("urlToImage", Text("https://example.com/images/ai-" + n + ".jpg")),
      ("publishedAt", Text(publishedAt)),
      ("content", Text(content))
    ]
  }

  /** The sample articles. */
  const SampleArticles: seq<Article> := [
    Sample("techcrunch", "TechCrunch", "홍길동",
      "인공지능 기술의 최신 동향: GPT-4의 충격적인 발전",
      "최근 발표된 GPT-4는 이전 모델보다 훨씬 더 정교한 결과를 보여주고 있어 AI 업계에 큰 반향을 일으키고 있다.",
      "1", "2023-12-01T09:00:00Z",
      "GPT-4는 이전 모델보다 더 나은 성능을 보여주고 있으며, 특히 복잡한 추론과 문맥 이해에서 큰 발전을 이루었다..."),
    Sample("wired", "Wired", "김철수",
      "머신러닝 모델의 훈련 방법: 효율성 향상을 위한 새로운 접근법",
      "데이터 과학자들이 머신러닝 모델의 훈련 효율성을 크게 높일 수 있는 새로운 방법을 발견했다.",
      "2", "2023-12-02T10:30:00Z",
      "이 새로운 훈련 방법은 기존 방식보다 50% 더 빠르게 모델을 훈련시키며, 동시에 정확도도 향상시킨다..."),
    Sample("sciencedaily", "Science Daily", "이영희",
      "딥러닝을 활용한 의료 영상 분석의 혁신",
      "연구진이 딥러닝 알고리즘을 사용하여 의료 영상에서 초기 단계의 질병을 감지하는 데 큰 성공을 거두었다.",
      "3", "2023-12-03T14:15:00Z",
      "이 딥러닝 알고리즘은 방사선 전문의보다 더 높은 정확도로 초기 단계의 종양을 감지할 수 있다고 연구진은 보고했다...")
  ]

  /** Articles that all have the sample keys give a table with exactly those columns, in that order. */
  lemma {:induction false} UniformColumns(articles: seq<Article>)
    requires articles != []
    requires forall i :: 0 <= i < |articles| ==> KeysOf(articles[i]) == SampleKeys
    ensures ColumnKeys(articles) == SampleKeys
    decreases |articles|
  {
    var n := |articles| - 1;
    var prev := articles[..n];
    if n == 0 {
      SampleKeysDistinct();
      assert Distinct([] + SampleKeys) by {
        assert [] + SampleKeys == (SampleKeys + ["출처"])[..8];
      }
      AddNewFresh([], SampleKeys);
    } else {
      UniformColumns(prev);
      AddNewSeen(SampleKeys, SampleKeys);
    }
  }

  /** The sample keys, followed by the Korean name column, are all different. */
  lemma SampleKeysDistinct()
    ensures Distinct(SampleKeys + ["출처"])
  {
    var k := SampleKeys + ["출처"];
    assert k[0][0] == 's' && k[1][0] == 'a' && k[2][0] == 't' && k[3][0] == 'd';
    assert k[4][0] == 'u' && k[5][0] == 'u' && k[6][0] == 'p' && k[7][0] == 'c';
    assert k[8][0] == '출';
    assert |k[4]| != |k[5]|;
  }

  /** Adding keys none of which was seen, each once, appends them all. */
  lemma {:induction false} AddNewFresh(seen: seq<string>, keys: seq<string>)
    requires Distinct(seen + keys)
    ensures AddNew(seen, keys) == seen + keys
    decreases |keys|
  {
    if keys != [] {
      forall i | 0 <= i < |seen|
        ensures seen[i] != keys[0]
      {
        assert (seen + keys)[i] == seen[i] && (seen + keys)[|seen|] == keys[0];
      }
      assert seen + [keys[0]] + keys[1..] == seen + keys;
      AddNewFresh(seen + [keys[0]], keys[1..]);
    }
  }

  /** Adding keys already seen adds nothing. */
  lemma {:induction false} AddNewSeen(seen: seq<string>, keys: seq<string>)
    requires forall k :: k in keys ==> k in seen
    ensures AddNew(seen, keys) == seen
    decreases |keys|
  {
    if keys != [] {
      AddNewSeen(seen, keys[1..]);
    }
  }

  /** Flattening articles with the sample keys moves the names to a new last column `출처`. */
  lemma UniformFlatHeaders(articles: seq<Article>)
    requires articles != []
    requires forall i :: 0 <= i < |articles| ==> KeysOf(articles[i]) == SampleKeys
    ensures Labels(Flattened(Frame(articles), "출처")) == SampleKeys[1..] + ["출처"]
  {
    UniformColumns(articles);
    var frame := Frame(articles);
    assert Labels(frame) == SampleKeys;
    assert frame[0].header == Labels(frame)[0] == "source";
    SampleKeysDistinct();
    FlattenFreshTarget(frame, "출처");
  }

  /**
   * Flattening a frame whose first column is `source` into a column name it
   * does not have yet drops `source` and appends the new column last.
   */
  lemma FlattenFreshTarget(frame: seq<Column>, target: string)
    requires |frame| > 0 && frame[0].header == "source"
    requires Distinct(Labels(frame) + [target])
    ensures Labels(Flattened(frame, target)) == Labels(frame)[1..] + [target]
  {
    var labels := Labels(frame);
    var k := labels + [target];
    var grown := frame + [Column(target, SourceNames(frame[0].cells))];
    DistinctLast(labels, target);
    assert Assigned(frame, target, SourceNames(frame[0].cells)) == grown;
    forall j | 0 < j < |grown|
      ensures grown[j].header != "source"
    {
      assert k[0] == "source";
      assert k[j] == grown[j].header;
    }
    DroppedFirst(grown, "source");
    assert Labels(grown[1..]) == k[1..];
  }

  lemma DistinctLast(s: seq<string>, x: string)
    requires Distinct(s + [x])
    ensures x !in s
  {
    forall i | 0 <= i < |s|
      ensures s[i] != x
    {
      assert (s + [x])[i] == s[i] && (s + [x])[|s|] == x;
    }
  }

  /**
   * The Korean sample workbook's columns: the renamed fields in the samples'
   * order, then the source names under `출처`.
   */
  lemma SampleKoreanHeaders()
    ensures Labels(Table(SampleArticles, "ko")) == ["작성자", "제목", "설명", "링크", "이미지_링크", "발행일", "내용", "출처"]
  {
    UniformKoreanHeaders(SampleArticles);
  }

  /** The Korean headers of any articles with the sample keys. */
  lemma UniformKoreanHeaders(articles: seq<Article>)
    requires articles != []
    requires forall i :: 0 <= i < |articles| ==> KeysOf(articles[i]) == SampleKeys
    ensures Labels(Table(articles, "ko")) == ["작성자", "제목", "설명", "링크", "이미지_링크", "발행일", "내용", "출처"]
  {
    var flat := Flattened(Frame(articles), "출처");
    UniformFlatHeaders(articles);
    KoreanRenamed(flat);
    var expected := ["작성자", "제목", "설명", "링크", "이미지_링크", "발행일", "내용", "출처"];
    var cols := Table(articles, "ko");
    forall j | 0 <= j < |cols|
      ensures Labels(cols)[j] == expected[j]
    {
      assert flat[j].header == Labels(flat)[j];
      FlatKoreanName(j);
    }
  }

  /** The Korean name of each flattened sample column. */
  lemma FlatKoreanName(j: nat)
    requires j < 8
    ensures KoreanName((SampleKeys[1..] + ["출처"])[j]) == ["작성자", "제목", "설명", "링크", "이미지_링크", "발행일", "내용", "출처"][j]
  {
    AiNewsFetcherKo.KoreanNameOfSource("출처");
  }

  /** Dropping a header only the first column has removes that column alone. */
  lemma {:induction false} DroppedFirst(cols: seq<Column>, header: string)
    requires |cols| > 0 && cols[0].header == header
    requires forall j :: 0 < j < |cols| ==> cols[j].header != header
    ensures Dropped(cols, header) == cols[1..]
    decreases |cols|
  {
    if |cols| > 1 {
      var n := |cols| - 1;
      DroppedFirst(cols[..n], header);
      assert cols[..n][1..] + [cols[n]] == cols[1..];
    }
  }

  /** The language of the run: `en` exactly when the first argument is `en`, and Korean otherwise. */
  function Language(args: seq<string>): (language: string)
    ensures language == "en" || language == "ko"
    ensures language == "en" <==> |args| > 1 && args[1] == "en"
  {
    if |args| > 1 && args[1] == "en" then "en" else "ko"
  }

  /** The column the source names go to: `출처` in Korean, `source_name` in any other language. */
  function NameColumn(language: string): (name: string)
    ensures language == "ko" ==> name == AiNewsFetcherKo.NameColumn
    ensures language != "ko" ==> name == AiNewsFetcher.NameColumn
  {
    if language == "ko" then "출처" else "source_name"
  }

  /** The workbook name for a day: `ai_news_test_` and the day as `YYYYMMDD`, which reads back as that day. */
  function Filename(today: Date): (name: string)
    requires today.Valid()
    ensures |name| == 26 && name[..13] == "ai_news_test_" && name[21..] == ".xlsx"
    ensures ParseCompact(name[13..21]) == Some(today)
  {
    var name := "ai_news_test_" + Compact(today) + ".xlsx";
    assert name[13..21] == Compact(today);
    ParseCompactOfCompact(today);
    name
  }

  /** The columns written in a language: flattened, then renamed only in Korean. */
  ghost function Table(articles: seq<Article>, language: string): seq<Column> {
    var flat := Flattened(Frame(articles), NameColumn(language));
    if language == "ko" then Renamed(flat, KoreanColumns) else flat
  }

  /**
   * The two languages agree with the two fetchers: the Korean table is the
   * Korean fetcher's, and the table in any other language is the English
   * fetcher's, with no column renamed.
   */
  lemma TableLanguages(articles: seq<Article>, language: string)
    ensures language == "ko" ==> Table(articles, language) == AiNewsFetcherKo.KoreanTable(articles)
    ensures language != "ko" ==> Table(articles, language) == Flattened(Frame(articles), AiNewsFetcher.NameColumn)
  {
  }

  /**
   * `save_to_excel`: `False` for no articles; otherwise the table of the
   * language is written under the day's file name, and the result is
   * whether the conversion and write went through (`writeOk`; any
   * exception is caught and gives `False`).
   */
  method SaveToExcel(articles: seq<Article>, language: string, today: Date, writeOk: bool)
    returns (ok: bool, written: Option<Sheet>)
    requires today.Valid()
    ensures ok <==> articles != [] && writeOk
    ensures ok <==> written.Some?
    ensures written.Some? ==> written.value == Sheet(Filename(today), Table(articles, language))
    ensures written.Some? ==> Rectangular(written.value.columns, |articles|)
  {
    if articles == [] {
      return false, None;
    }
    var filename := Filename(today);
    var df := new DataFrame(articles);
    df.FlattenSource(NameColumn(language));
    if language == "ko" {
      df.RenameColumns(KoreanColumns);
    }
    if writeOk {
      ok, written := true, Some(Sheet(filename, df.columns));
    } else {
      ok, written := false, None;
    }
  }

  /** `main`: the samples are written in the language of the arguments, which succeeds exactly when the write does. */
  method RunSample(args: seq<string>, today: Date, writeOk: bool) returns (ok: bool, written: Option<Sheet>)
    requires today.Valid()
    ensures ok == writeOk
    ensures written.Some? <==> writeOk
    ensures written.Some? ==> written.value == Sheet(Filename(today), Table(SampleArticles, Language(args)))
  {
    ok, written := SaveToExcel(SampleArticles, Language(args), today, writeOk);
  }
}
