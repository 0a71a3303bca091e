/**
 * The article table the NewsAPI fetchers write to Excel
 * (`ai_news_fetcher.py`, `ai_news_fetcher_ko.py`, `test_excel_generation.py`).
 *
 * An article is the dict NewsAPI returns, its keys in order. The table is a
 * pandas DataFrame built from the articles: one column per key, in the order
 * the keys first appear, with a missing cell where an article lacks a key.
 * Columns are kept as a sequence of labelled columns because pandas allows a
 * header twice (a rename can produce one). The transforms the fetchers apply
 * in place (the `source` flattening and the English-to-Korean renaming) are
 * the methods of `DataFrame`; the write to the workbook is not modelled
 * beyond the file name and the columns it receives.
 */
module ArticleTable {
  import opened Options

  /** A cell: text, a nested dict (such as `source`), or anything else (None, a number, a missing value). */
  datatype Value = Text(text: string) | Record(fields: map<string, Value>) | Other

  /** An article: a dict, as its key-value pairs in insertion order. */
  type Article = seq<(string, Value)>

  datatype Column = Column(header: string, cells: seq<Value>)

  /** What a workbook write receives: the file name and the table's columns. */
  datatype Sheet = Sheet(filename: string, columns: seq<Column>)

  /** `article.get(key)`, with the missing value for an absent key. */
  function Get(a: Article, key: string): Value {
    if a == [] then Other
    else if a[0].0 == key then a[0].1
    else Get(a[1..], key)
  }

  /** The keys of an article in order. */
  function KeysOf(a: Article): (keys: seq<string>)
    ensures |keys| == |a|
    ensures forall i :: 0 <= i < |a| ==> keys[i] == a[i].0
  {
    seq(|a|, i requires 0 <= i < |a| => a[i].0)
  }

  /** `seen` followed by those of `keys` not seen yet, each once, in order. */
  function AddNew(seen: seq<string>, keys: seq<string>): (r: seq<string>)
    ensures |seen| <= |r| && r[..|seen|] == seen
    ensures forall k :: k in r <==> k in seen || k in keys
    decreases |keys|
  {
    if keys == [] then seen
    else if keys[0] in seen then AddNew(seen, keys[1..])
    else
      var r := AddNew(seen + [keys[0]], keys[1..]);
      assert r[..|seen|] == r[..|seen| + 1][..|seen|];
      r
  }

  predicate Distinct(s: seq<string>) {
    forall i, j :: 0 <= i < j < |s| ==> s[i] != s[j]
  }

  lemma {:induction false} AddNewDistinct(seen: seq<string>, keys: seq<string>)
    requires Distinct(seen)
    ensures Distinct(AddNew(seen, keys))
    decreases |keys|
  {
    if keys != [] && keys[0] !in seen {
      AddNewDistinct(seen + [keys[0]], keys[1..]);
    } else if keys != [] {
      AddNewDistinct(seen, keys[1..]);
    }
  }

  /** The column labels of `pd.DataFrame(articles)`: every key, in the order keys first appear. */
  function ColumnKeys(articles: seq<Article>): (keys: seq<string>)
    ensures Distinct(keys)
    ensures forall i, k :: 0 <= i < |articles| && k in KeysOf(articles[i]) ==> k in keys
    ensures forall k :: k in keys ==> exists i :: 0 <= i < |articles| && k in KeysOf(articles[i])
  {
    if articles == [] then []
    else
      var n := |articles| - 1;
      var prev := ColumnKeys(articles[..n]);
      var keys := AddNew(prev, KeysOf(articles[n]));
      AddNewDistinct(prev, KeysOf(articles[n]));
      assert forall i :: 0 <= i < n ==> articles[..n][i] == articles[i];
      keys
  }

  /** `pd.DataFrame(articles)`: one column per key, one row per article. */
  function Frame(articles: seq<Article>): (cols: seq<Column>)
    ensures Labels(cols) == ColumnKeys(articles)
    ensures forall j :: 0 <= j < |cols| ==> |cols[j].cells| == |articles|
  {
    var keys := ColumnKeys(articles);
    seq(|keys|, j requires 0 <= j < |keys| =>
      Column(keys[j], seq(|articles|, i requires 0 <= i < |articles| => Get(articles[i], keys[j]))))
  }

  function Labels(cols: seq<Column>): (labels: seq<string>)
    ensures |labels| == |cols|
    ensures forall j :: 0 <= j < |cols| ==> labels[j] == cols[j].header
  {
    seq(|cols|, j requires 0 <= j < |cols| => cols[j].header)
  }

  /** The cell of the `source` flattening: the dict's `name`, or the empty text when it is not a dict or has none. */
  function SourceName(v: Value): Value {
    match v
    case Record(fields) => if "name" in fields then fields["name"] else Text("")
    case _ => Text("")
  }

  /** `df['source'].apply(...)`: `SourceName` of every cell. */
  function SourceNames(cells: seq<Value>): (names: seq<Value>)
    ensures |names| == |cells|
    ensures forall i :: 0 <= i < |cells| ==> names[i] == SourceName(cells[i])
  {
    seq(|cells|, i requires 0 <= i < |cells| => SourceName(cells[i]))
  }

  /** The index of the first column with a header. */
  function Find(cols: seq<Column>, header: string): (j: nat)
    ensures j <= |cols|
    ensures j < |cols| ==> cols[j].header == header
    ensures forall i :: 0 <= i < j ==> cols[i].header != header
    ensures j == |cols| <==> header !in Labels(cols)
  {
    if cols == [] then 0
    else if cols[0].header == header then 0
    else 1 + Find(cols[1..], header)
  }

  /** `df[header] = cells`: the column with that header gets the cells, or a new last column is added. */
  function Assigned(cols: seq<Column>, header: string, cells: seq<Value>): (r: seq<Column>)
  {
    var j := Find(cols, header);
    if j == |cols| then cols + [Column(header, cells)]
    else cols[..j] + [Column(header, cells)] + cols[j + 1..]
  }

  /** `df.drop(header, axis=1)`: every column with that header removed, the others in order. */
  function Dropped(cols: seq<Column>, header: string): (r: seq<Column>)
    ensures header !in Labels(r)
    ensures |r| <= |cols|
  {
    if cols == [] then []
    else
      var n := |cols| - 1;
      var rest := Dropped(cols[..n], header);
      if cols[n].header == header then rest else rest + [cols[n]]
  }

  /** Every column has `height` cells. */
  predicate Rectangular(cols: seq<Column>, height: nat) {
    forall j :: 0 <= j < |cols| ==> |cols[j].cells| == height
  }

  lemma AssignedRectangular(cols: seq<Column>, header: string, cells: seq<Value>, height: nat)
    requires Rectangular(cols, height) && |cells| == height
    ensures Rectangular(Assigned(cols, header, cells), height)
  {
  }

  lemma {:induction false} DroppedRectangular(cols: seq<Column>, header: string, height: nat)
    requires Rectangular(cols, height)
    ensures Rectangular(Dropped(cols, header), height)
    decreases |cols|
  {
    if cols != [] {
      DroppedRectangular(cols[..|cols| - 1], header, height);
    }
  }

  /**
   * The `source` flattening: when there is a `source` column, its names go
   * to the column `target` and `source` is dropped; otherwise nothing changes.
   */
  function Flattened(cols: seq<Column>, target: string): seq<Column> {
    var j := Find(cols, "source");
    if j == |cols| then cols
    else Dropped(Assigned(cols, target, SourceNames(cols[j].cells)), "source")
  }

  /** The header a column ends up with after the renames of `mapping`, applied in order. */
  function Relabel(mapping: seq<(string, string)>, header: string): string {
    if mapping == [] then header
    else
      var n := |mapping| - 1;
      var before := Relabel(mapping[..n], header);
      if before == mapping[n].0 then mapping[n].1 else before
  }

  /** `df.rename(columns={eng: kor})`: every column labelled `eng` relabelled `kor`, cells unchanged. */
  function RenamedOne(cols: seq<Column>, eng: string, kor: string): (r: seq<Column>)
    ensures |r| == |cols|
    ensures forall j :: 0 <= j < |cols| ==> r[j].cells == cols[j].cells
    ensures forall j :: 0 <= j < |cols| ==> r[j].header == if cols[j].header == eng then kor else cols[j].header
  {
    seq(|cols|, j requires 0 <= j < |cols| => if cols[j].header == eng then Column(kor, cols[j].cells) else cols[j])
  }

  /** The columns after the renames of `mapping`: every column relabelled by `Relabel`, its cells unchanged. */
  function Renamed(cols: seq<Column>, mapping: seq<(string, string)>): (r: seq<Column>)
    ensures |r| == |cols|
  {
    seq(|cols|, j requires 0 <= j < |cols| => Column(Relabel(mapping, cols[j].header), cols[j].cells))
  }

  /** Renaming a header the table does not have changes nothing: the presence check only saves work. */
  lemma RenamedAbsent(cols: seq<Column>, eng: string, kor: string)
    ensures eng !in Labels(cols) ==> RenamedOne(cols, eng, kor) == cols
  {
    if eng !in Labels(cols) {
      forall j | 0 <= j < |cols|
        ensures RenamedOne(cols, eng, kor)[j] == cols[j]
      {
        assert Labels(cols)[j] == cols[j].header;
      }
    }
  }

  /** One more rename of the loop. */
  lemma RenamedStep(start: seq<Column>, mapping: seq<(string, string)>, k: nat)
    requires k < |mapping|
    ensures RenamedOne(Renamed(start, mapping[..k]), mapping[k].0, mapping[k].1) == Renamed(start, mapping[..k + 1])
  {
    assert mapping[..k + 1][..k] == mapping[..k];
  }

  /** With no renames, every column keeps its header. */
  lemma RenamedNone(cols: seq<Column>)
    ensures Renamed(cols, []) == cols
  {
  }

  /** The English-to-Korean column names of the Korean fetchers, in their order. */
  const KoreanColumns: seq<(string, string)> := [
    ("title", "제목"),
    ("author", "작성자"),
    ("publishedAt", "발행일"),
    ("description", "설명"),
    ("content", "내용"),
    ("url", "링크"),
    ("urlToImage", "이미지_링크")
  ]

  /** The Korean name of a column, or the column's own header when the table has no entry for it. */
  function KoreanName(header: string): string {
    if header == "title" then "제목"
    else if header == "author" then "작성자"
    else if header == "publishedAt" then "발행일"
    else if header == "description" then "설명"
    else if header == "content" then "내용"
    else if header == "url" then "링크"
    else if header == "urlToImage" then "이미지_링크"
    else header
  }

  /**
   * The Korean renaming gives each column its Korean name: the seven
   * English NewsAPI fields are translated, every other header is kept, and
   * no cell changes.
   */
  lemma {:induction false} KoreanRenamed(cols: seq<Column>)
    ensures |Renamed(cols, KoreanColumns)| == |cols|
    ensures forall j :: 0 <= j < |cols| ==>
      Renamed(cols, KoreanColumns)[j] == Column(KoreanName(cols[j].header), cols[j].cells)
  {
    forall j | 0 <= j < |cols|
      ensures Renamed(cols, KoreanColumns)[j] == Column(KoreanName(cols[j].header), cols[j].cells)
    {
      KoreanRelabel(cols[j].header);
    }
  }

  /** `Relabel` with the Korean table is `KoreanName`: no Korean name is itself an English key. */
  lemma KoreanRelabel(header: string)
    ensures Relabel(KoreanColumns, header) == KoreanName(header)
  {
    KoreanPrefixRelabel(header, 7);
    assert KoreanColumns[..7] == KoreanColumns;
  }

  lemma {:induction false} KoreanPrefixRelabel(header: string, n: nat)
    requires n <= |KoreanColumns|
    ensures Relabel(KoreanColumns[..n], header) == KoreanPrefix(header, n)
    decreases n
  {
    var m := KoreanColumns;
    if n == 0 {
      assert m[..0] == [];
    } else {
      KoreanPrefixRelabel(header, n - 1);
      assert m[..n][..n - 1] == m[..n - 1];
      KoreanPrefixNext(header, n - 1);
    }
  }

  /** The next entry renames exactly its own English key: no earlier Korean name is an English key. */
  lemma KoreanPrefixNext(header: string, k: nat)
    requires k < |KoreanColumns|
    ensures var before := KoreanPrefix(header, k);
      KoreanPrefix(header, k + 1) == if before == KoreanColumns[k].0 then KoreanColumns[k].1 else before
  {
    var key := KoreanColumns[k].0;
    assert key[0] in "tapdcu";
    var before := KoreanPrefix(header, k);
    assert before == header || before[0] !in "tapdcu";
  }

  /** `KoreanName` restricted to the first `n` entries of the table. */
  function KoreanPrefix(header: string, n: nat): string {
    if n >= 1 && header == "title" then "제목"
    else if n >= 2 && header == "author" then "작성자"
    else if n >= 3 && header == "publishedAt" then "발행일"
    else if n >= 4 && header == "description" then "설명"
    else if n >= 5 && header == "content" then "내용"
    else if n >= 6 && header == "url" then "링크"
    else if n >= 7 && header == "urlToImage" then "이미지_링크"
    else header
  }

  /**
   * The flattening removes `source` and puts its names in `target`: after
   * it no column is labelled `source`; without a `source` column nothing
   * changes; and when `target` is new, the other columns keep their order
   * and the names come last.
   */
  lemma FlattenedSource(cols: seq<Column>, target: string)
    requires target != "source"
    ensures "source" !in Labels(Flattened(cols, target))
    ensures "source" !in Labels(cols) ==> Flattened(cols, target) == cols
    ensures "source" in Labels(cols) && target !in Labels(cols) ==>
      Flattened(cols, target) == Dropped(cols, "source") + [Column(target, SourceNames(cols[Find(cols, "source")].cells))]
  {
    if "source" in Labels(cols) && target !in Labels(cols) {
      var names := SourceNames(cols[Find(cols, "source")].cells);
      var grown := cols + [Column(target, names)];
      assert grown[..|cols|] == cols;
    }
  }

  /**
   * The flattening touches no other column: every column that is neither
   * `source` nor `target` survives it, the names column is there whenever
   * `source` was, and nothing else is added.
   */
  lemma FlattenedKeeps(cols: seq<Column>, target: string, c: Column)
    requires target != "source"
    ensures c in cols && c.header != "source" && c.header != target ==> c in Flattened(cols, target)
    ensures "source" in Labels(cols) ==>
      Column(target, SourceNames(cols[Find(cols, "source")].cells)) in Flattened(cols, target)
    ensures c in Flattened(cols, target) ==> c in cols || c.header == target
  {
    var j := Find(cols, "source");
    if j < |cols| {
      var names := SourceNames(cols[j].cells);
      AssignedKeeps(cols, target, names, c);
      DroppedKeeps(Assigned(cols, target, names), "source", c);
      DroppedKeeps(Assigned(cols, target, names), "source", Column(target, names));
      AssignedKeeps(cols, target, names, Column(target, names));
    }
  }

  lemma AssignedKeeps(cols: seq<Column>, header: string, cells: seq<Value>, c: Column)
    ensures Column(header, cells) in Assigned(cols, header, cells)
    ensures c in cols && c.header != header ==> c in Assigned(cols, header, cells)
    ensures c in Assigned(cols, header, cells) ==> c in cols || c == Column(header, cells)
  {
    var j := Find(cols, header);
    if j < |cols| {
      assert cols == cols[..j] + [cols[j]] + cols[j + 1..];
      var r := Assigned(cols, header, cells);
      assert r[j] == Column(header, cells);
    }
  }

  /** Dropping a header keeps exactly the other columns, in order. */
  lemma {:induction false} DroppedKeeps(cols: seq<Column>, header: string, c: Column)
    ensures c in Dropped(cols, header) <==> c in cols && c.header != header
    decreases |cols|
  {
    if cols != [] {
      var n := |cols| - 1;
      DroppedKeeps(cols[..n], header, c);
      assert cols == cols[..n] + [cols[n]];
    }
  }

  /** The NewsAPI answer: its `status` and, when present, its `articles`. */
  datatype Response = Response(status: string, articles: Option<seq<Article>>)

  /**
   * `fetch_ai_news`: the articles of a successful answer. There are none
   * without an API key (no request is made), when the request raised
   * (`response` is None), when the status is not `ok`, or when an `ok`
   * answer has no `articles`.
   */
  function FetchArticles(apiKey: Option<string>, response: Option<Response>): (articles: Option<seq<Article>>)
    ensures articles.Some? <==>
      && apiKey.GetOr("") != ""
      && response.Some? && response.value.status == "ok" && response.value.articles.Some?
    ensures articles.Some? ==> articles == response.value.articles
  {
    if apiKey.GetOr("") == "" then None
    else if response.None? then None
    else if response.value.status != "ok" then None
    else response.value.articles
  }

  class DataFrame {
    var columns: seq<Column>
    const height: nat

    ghost predicate Valid()
      reads this
    {
      Rectangular(columns, height)
    }

    /** `pd.DataFrame(articles)`. */
    constructor(articles: seq<Article>)
      ensures Valid()
      ensures columns == Frame(articles) && height == |articles|
    {
      columns := Frame(articles);
      height := |articles|;
    }

    /**
     * `if 'source' in df.columns: df[target] = df['source'].apply(...);
     * df.drop('source', axis=1, inplace=True)`.
     */
    method FlattenSource(target: string)
      requires Valid()
      modifies this
      ensures Valid()
      ensures columns == Flattened(old(columns), target)
    {
      var j := Find(columns, "source");
      if j < |columns| {
        var names := SourceNames(columns[j].cells);
        AssignedRectangular(columns, target, names, height);
        columns := Assigned(columns, target, names);
        DroppedRectangular(columns, "source", height);
        columns := Dropped(columns, "source");
      }
    }

    /** The loop of `for eng, kor in mapping.items(): if eng in df.columns: df.rename(...)`. */
    method RenameColumns(mapping: seq<(string, string)>)
      requires Valid()
      modifies this
      ensures Valid()
      ensures columns == Renamed(old(columns), mapping)
    {
      assert columns == Renamed(columns, mapping[..0]);
      for k := 0 to |mapping|
        invariant Valid()
        invariant columns == Renamed(old(columns), mapping[..k])
      {
        var eng := mapping[k].0;
        var kor := mapping[k].1;
        RenamedStep(old(columns), mapping, k);
        RenamedAbsent(columns, eng, kor);
        if eng in Labels(columns) {
          columns := RenamedOne(columns, eng, kor);
        }
      }
      assert mapping[..|mapping|] == mapping;
    }
  }
}
