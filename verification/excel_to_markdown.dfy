/**
 * `scripts/excel_to_markdown.py`: every row of a crawled spreadsheet becomes
 * a Jekyll post `_posts/YYYY-MM-DD-<slug>.md`, the slug made from the row's
 * title, with a numeric suffix when the name is taken.
 */
module ExcelToMarkdown {
  import opened Options
  import opened Chars
  import opened Decimal
  import opened Dates
  import opened Substrings

  // ---------------------------------------------------------------------
  // clean_filename

  /** `[-\s]`: the characters a run of which becomes one hyphen. */
  predicate IsRunChar(c: char) {
    c == '-' || IsSpace(c)
  }

  /** `[\w\s-]`: the characters the first substitution keeps. */
  predicate IsKept(c: char) {
    IsWordChar(c) || IsSpace(c) || c == '-'
  }

  predicate NoDoubleHyphen(s: string) {
    forall i :: 0 <= i < |s| - 1 ==> !(s[i] == '-' && s[i + 1] == '-')
  }

  /** `re.sub(r'[^\w\s-]', '', s)`: every other character deleted, the rest kept in order. */
  function RemoveSpecial(s: string): (r: string)
    ensures forall i :: 0 <= i < |r| ==> IsKept(r[i])
    ensures (forall i :: 0 <= i < |s| ==> IsKept(s[i])) ==> r == s
    decreases |s|
  {
    if s == [] then []
    else (if IsKept(s[0]) then [s[0]] else []) + RemoveSpecial(s[1..])
  }

  /**
   * `re.sub(r'[-\s]+', '-', s)`: each maximal run of hyphens and whitespace
   * becomes a single hyphen; every other character is kept.
   */
  function CollapseRuns(s: string): (r: string)
    ensures forall i :: 0 <= i < |r| ==> r[i] == '-' || !IsRunChar(r[i])
    ensures NoDoubleHyphen(r)
    ensures s != [] && !IsRunChar(s[0]) ==> r != [] && r[0] == s[0]
    decreases |s|
  {
    if s == [] then []
    else if IsRunChar(s[0]) then "-" + CollapseRuns(TrimStart(s[1..], IsRunChar))
    else [s[0]] + CollapseRuns(s[1..])
  }

  /** Collapsing runs of kept characters leaves only word characters and hyphens. */
  lemma {:induction false} CollapseRunsKeepsWords(s: string)
    requires forall i :: 0 <= i < |s| ==> IsKept(s[i])
    ensures forall i :: 0 <= i < |CollapseRuns(s)| ==> IsWordChar(CollapseRuns(s)[i]) || CollapseRuns(s)[i] == '-'
    decreases |s|
  {
    if s != [] {
      if IsRunChar(s[0]) {
        var rest := TrimStart(s[1..], IsRunChar);
        assert rest == s[1..][|s[1..]| - |rest|..];
        CollapseRunsKeepsWords(rest);
      } else {
        CollapseRunsKeepsWords(s[1..]);
      }
    }
  }

  predicate IsHyphen(c: char) {
    c == '-'
  }

  /** `s.strip('-')` is a contiguous piece of `s`. */
  lemma TrimIsSlice(s: string, drop: char -> bool)
    ensures var start := |s| - |TrimStart(s, drop)|;
            start + |Trim(s, drop)| <= |s| && Trim(s, drop) == s[start..start + |Trim(s, drop)|]
  {
  }

  /**
   * `clean_filename(title)`: the slug holds only word characters and
   * hyphens, never two hyphens in a row, no hyphen at either end, and no
   * upper-case letter.
   */
  function CleanFilename(title: string): (slug: string)
    ensures forall i :: 0 <= i < |slug| ==> IsWordChar(slug[i]) || slug[i] == '-'
    ensures NoDoubleHyphen(slug)
    ensures slug == [] || (slug[0] != '-' && slug[|slug| - 1] != '-')
    ensures forall i :: 0 <= i < |slug| ==> !IsUpper(slug[i])
  {
    var cleaned := CollapseRuns(RemoveSpecial(title));
    CollapseRunsKeepsWords(RemoveSpecial(title));
    LowerKeepsSlugShape(cleaned);
    StripHyphensKeepsShape(Lower(cleaned));
    Trim(Lower(cleaned), IsHyphen)
  }

  lemma LowerKeepsSlugShape(cleaned: string)
    requires forall i :: 0 <= i < |cleaned| ==> IsWordChar(cleaned[i]) || cleaned[i] == '-'
    requires NoDoubleHyphen(cleaned)
    ensures forall i :: 0 <= i < |Lower(cleaned)| ==> IsWordChar(Lower(cleaned)[i]) || Lower(cleaned)[i] == '-'
    ensures forall i :: 0 <= i < |Lower(cleaned)| ==> !IsUpper(Lower(cleaned)[i])
    ensures NoDoubleHyphen(Lower(cleaned))
  {
    var lowered := Lower(cleaned);
    forall i | 0 <= i < |cleaned|
      ensures IsWordChar(lowered[i]) || lowered[i] == '-'
      ensures lowered[i] == '-' <==> cleaned[i] == '-'
    {
      ToLowerKeepsClass(cleaned[i]);
    }
  }

  lemma StripHyphensKeepsShape(s: string)
    requires forall i :: 0 <= i < |s| ==> IsWordChar(s[i]) || s[i] == '-'
    requires forall i :: 0 <= i < |s| ==> !IsUpper(s[i])
    requires NoDoubleHyphen(s)
    ensures var r := Trim(s, IsHyphen);
            && (forall i :: 0 <= i < |r| ==> IsWordChar(r[i]) || r[i] == '-')
            && (forall i :: 0 <= i < |r| ==> !IsUpper(r[i]))
            && NoDoubleHyphen(r)
            && (r == [] || (r[0] != '-' && r[|r| - 1] != '-'))
  {
    TrimIsSlice(s, IsHyphen);
    var start := |s| - |TrimStart(s, IsHyphen)|;
    SliceKeepsShape(s, start, start + |Trim(s, IsHyphen)|);
  }

  lemma SliceKeepsShape(s: string, lo: nat, hi: nat)
    requires lo <= hi <= |s|
    requires forall i :: 0 <= i < |s| ==> IsWordChar(s[i]) || s[i] == '-'
    requires forall i :: 0 <= i < |s| ==> !IsUpper(s[i])
    requires NoDoubleHyphen(s)
    ensures forall i :: 0 <= i < hi - lo ==> IsWordChar(s[lo..hi][i]) || s[lo..hi][i] == '-'
    ensures forall i :: 0 <= i < hi - lo ==> !IsUpper(s[lo..hi][i])
    ensures NoDoubleHyphen(s[lo..hi])
  {
    var r := s[lo..hi];
    forall i | 0 <= i < |r| - 1
      ensures !(r[i] == '-' && r[i + 1] == '-')
    {
      assert r[i] == s[lo + i] && r[i + 1] == s[lo + i + 1];
    }
  }

  /** A string that already has the shape of a slug is its own slug. */
  lemma CleanFilenameFixes(s: string)
    requires forall i :: 0 <= i < |s| ==> IsWordChar(s[i]) || s[i] == '-'
    requires NoDoubleHyphen(s)
    requires s == [] || (s[0] != '-' && s[|s| - 1] != '-')
    requires forall i :: 0 <= i < |s| ==> !IsUpper(s[i])
    ensures CleanFilename(s) == s
  {
    assert RemoveSpecial(s) == s;
    CollapseRunsFixes(s);
    assert TrimStart(s, IsHyphen) == s;
    assert Lower(s) == s by {
      forall i | 0 <= i < |s| ensures Lower(s)[i] == s[i] { ToLowerKeepsClass(s[i]); }
    }
  }

  lemma {:induction false} CollapseRunsFixes(s: string)
    requires forall i :: 0 <= i < |s| ==> IsWordChar(s[i]) || s[i] == '-'
    requires NoDoubleHyphen(s)
    ensures CollapseRuns(s) == s
    decreases |s|
  {
    if s != [] {
      var t := s[1..];
      assert NoDoubleHyphen(t) by {
        forall i | 0 <= i < |t| - 1
          ensures !(t[i] == '-' && t[i + 1] == '-')
        {
          assert t[i] == s[i + 1] && t[i + 1] == s[i + 2];
        }
      }
      CollapseRunsFixes(t);
      assert s == [s[0]] + t;
      if s[0] == '-' {
        assert t == [] || !IsRunChar(t[0]) by {
          if t != [] {
            assert t[0] == s[1];
            assert !(s[0] == '-' && s[1] == '-');
          }
        }
        assert TrimStart(t, IsRunChar) == t;
        assert CollapseRuns(s) == "-" + CollapseRuns(t);
      } else {
        assert !IsRunChar(s[0]);
        assert CollapseRuns(s) == [s[0]] + CollapseRuns(t);
      }
    }
  }

  /** Cleaning a slug again changes nothing. */
  lemma CleanFilenameIdempotent(title: string)
    ensures CleanFilename(CleanFilename(title)) == CleanFilename(title)
  {
    CleanFilenameFixes(CleanFilename(title));
  }

  // ---------------------------------------------------------------------
  // Spreadsheet rows

  /** A spreadsheet cell as pandas reads it: missing (`NaN`) or a value shown as text. */
  datatype Cell = Null | Text(text: string)

  /** One row of the sheet: column label to cell. */
  type Row = map<string, Cell>

  /** `str(value)`: a missing value prints as `nan`. */
  function Str(c: Cell): string {
    match c
    case Null => "nan"
    case Text(t) => t
  }

  /** `pd.notna(value)`. */
  predicate NotNull(c: Cell) {
    c.Text?
  }

  predicate AnyCell(c: Cell) {
    true
  }

  /**
   * The cell of the first column in `keys` that the row has and whose cell
   * is `usable`; none when there is no such column.
   */
  function FirstCell(row: Row, keys: seq<string>, usable: Cell -> bool): (r: Option<Cell>)
    ensures r.None? <==> forall i :: 0 <= i < |keys| ==> !(keys[i] in row && usable(row[keys[i]]))
    ensures r.Some? ==> exists i :: 0 <= i < |keys| && keys[i] in row && usable(row[keys[i]])
                                   && r.value == row[keys[i]]
                                   && forall j :: 0 <= j < i ==> !(keys[j] in row && usable(row[keys[j]]))
  {
    if keys == [] then None
    else if keys[0] in row && usable(row[keys[0]]) then Some(row[keys[0]])
    else
      var r := FirstCell(row, keys[1..], usable);
      assert forall i :: 1 <= i < |keys| ==> keys[i] == keys[1..][i - 1];
      r
  }

  lemma FirstCellStep(row: Row, keys: seq<string>, usable: Cell -> bool)
    requires keys != []
    ensures FirstCell(row, keys, usable)
         == if keys[0] in row && usable(row[keys[0]]) then Some(row[keys[0]]) else FirstCell(row, keys[1..], usable)
  {
  }

  /** `str(row.get('제목', row.get('title', default)))`. */
  function RowTitle(row: Row, default: string): string {
    match FirstCell(row, ["제목", "title"], AnyCell)
    case Some(c) => Str(c)
    case None => default
  }

  /** The title `excel_to_markdown` gives row `index` when it has neither title column. */
  function DefaultTitle(index: nat): string {
    "AI News " + NatToString(index + 1)
  }

  /** The title precedence: `제목` when the row has it, else `title`, else the default (a missing cell reads `nan`). */
  lemma RowTitlePrecedence(row: Row, default: string)
    ensures "제목" in row ==> RowTitle(row, default) == Str(row["제목"])
    ensures "제목" !in row && "title" in row ==> RowTitle(row, default) == Str(row["title"])
    ensures "제목" !in row && "title" !in row ==> RowTitle(row, default) == default
  {
    var keys := ["제목", "title"];
    FirstCellStep(row, keys, AnyCell);
    assert keys[1..] == ["title"];
    FirstCellStep(row, ["title"], AnyCell);
    assert ["title"][1..] == [];
  }

  // ---------------------------------------------------------------------
  // create_post_content

  /** The YAML front matter of a post; `yaml.dump` itself is a parameter of the model. */
  datatype FrontMatter = FrontMatter(layout: string, title: string, date: string, categories: seq<string>,
                                     tags: seq<string>, author: string, sourceUrl: Option<string>)

  const SourceKeys: seq<string> := ["링크", "url"]
  const BodyKeys: seq<string> := ["내용", "content", "요약"]
  const Footer: string := "---\n*이 포스트는 자동으로 생성되었습니다.*\n"

  function SourceUrl(row: Row): Option<string> {
    match FirstCell(row, SourceKeys, NotNull)
    case Some(c) => Some(Str(c))
    case None => None
  }

  function FrontMatterOf(row: Row, dateStr: string): FrontMatter {
    FrontMatter("post", RowTitle(row, "AI News"), dateStr, ["ai", "news"], ["google", "crawling", "ai"],
                "AI News Crawler", SourceUrl(row))
  }

  /** `---`, the dumped front matter, `---`, then the heading line. */
  function Header(fm: FrontMatter, dump: FrontMatter -> string): string {
    "---\n" + dump(fm) + "---\n\n" + "# " + fm.title + "\n\n"
  }

  /** The body paragraph: the first non-null of `내용`, `content`, `요약`; nothing when all are missing. */
  function BodyPart(row: Row): string {
    match FirstCell(row, BodyKeys, NotNull)
    case Some(c) => Str(c) + "\n\n"
    case None => ""
  }

  /** The link line, written only when the source URL is set and not empty. */
  function LinkPart(fm: FrontMatter): string {
    if fm.sourceUrl.Some? && fm.sourceUrl.value != "" then "[원문 보기](" + fm.sourceUrl.value + ")\n\n" else ""
  }

  /** The text of the post `create_post_content(row, date_str)` writes. */
  function PostContent(row: Row, dateStr: string, dump: FrontMatter -> string): string {
    var fm := FrontMatterOf(row, dateStr);
    Header(fm, dump) + BodyPart(row) + LinkPart(fm) + Footer
  }

  /**
   * The layout of every post: it opens with the front matter between `---`
   * lines and the `# title` heading, and closes with the footer; the link
   * line comes right before the footer when there is a source URL; without
   * one the body is followed directly by the footer, and a post with
   * neither body nor link is just heading and footer.
   */
  lemma PostLayout(row: Row, dateStr: string, dump: FrontMatter -> string)
    ensures var fm := FrontMatterOf(row, dateStr);
            var post := PostContent(row, dateStr, dump);
            && Header(fm, dump) <= post
            && |Footer| <= |post| && post[|post| - |Footer|..] == Footer
            && (fm.sourceUrl.Some? && fm.sourceUrl.value != "" ==>
                  var tail := "[원문 보기](" + fm.sourceUrl.value + ")\n\n" + Footer;
                  |tail| <= |post| && post[|post| - |tail|..] == tail)
            && (!(fm.sourceUrl.Some? && fm.sourceUrl.value != "") ==> post == Header(fm, dump) + BodyPart(row) + Footer)
            && (LinkPart(fm) == "" && FirstCell(row, BodyKeys, NotNull).None? ==> post == Header(fm, dump) + Footer)
  {
    hide Header;
    var fm := FrontMatterOf(row, dateStr);
    PartsLayout(Header(fm, dump), BodyPart(row), LinkPart(fm), Footer);
  }

  lemma PartsLayout(header: string, body: string, link: string, footer: string)
    ensures var post := header + body + link + footer;
            && header <= post
            && |footer| <= |post| && post[|post| - |footer|..] == footer
            && |link + footer| <= |post| && post[|post| - |link + footer|..] == link + footer
            && (link == "" ==> post == header + body + footer)
            && (link == "" && body == "" ==> post == header + footer)
  {
    var post := header + body + link + footer;
    assert post == header + (body + link + footer);
    assert post == (header + body) + (link + footer);
  }

  /** Where the source URL and the body come from: the first usable column in order. */
  lemma FieldPrecedence(row: Row)
    ensures "링크" in row && NotNull(row["링크"]) ==> SourceUrl(row) == Some(Str(row["링크"]))
    ensures !("링크" in row && NotNull(row["링크"])) && "url" in row && NotNull(row["url"]) ==>
              SourceUrl(row) == Some(Str(row["url"]))
    ensures !("링크" in row && NotNull(row["링크"])) && !("url" in row && NotNull(row["url"])) ==>
              SourceUrl(row).None?
    ensures "내용" in row && NotNull(row["내용"]) ==> BodyPart(row) == Str(row["내용"]) + "\n\n"
    ensures !("내용" in row && NotNull(row["내용"])) && "content" in row && NotNull(row["content"]) ==>
              BodyPart(row) == Str(row["content"]) + "\n\n"
    ensures (!("내용" in row && NotNull(row["내용"])) && !("content" in row && NotNull(row["content"]))
             && "요약" in row && NotNull(row["요약"])) ==> BodyPart(row) == Str(row["요약"]) + "\n\n"
    ensures (forall i :: 0 <= i < |BodyKeys| ==> !(BodyKeys[i] in row && NotNull(row[BodyKeys[i]]))) ==>
              BodyPart(row) == ""
  {
    SourcePrecedence(row);
    BodyPrecedence(row);
  }

  lemma SourcePrecedence(row: Row)
    ensures FirstCell(row, SourceKeys, NotNull)
         == if "링크" in row && NotNull(row["링크"]) then Some(row["링크"])
            else if "url" in row && NotNull(row["url"]) then Some(row["url"])
            else None
  {
    FirstCellStep(row, SourceKeys, NotNull);
    assert SourceKeys[1..] == ["url"];
    FirstCellStep(row, ["url"], NotNull);
    assert ["url"][1..] == [];
  }

  lemma BodyPrecedence(row: Row)
    ensures FirstCell(row, BodyKeys, NotNull)
         == if "내용" in row && NotNull(row["내용"]) then Some(row["내용"])
            else if "content" in row && NotNull(row["content"]) then Some(row["content"])
            else if "요약" in row && NotNull(row["요약"]) then Some(row["요약"])
            else None
  {
    FirstCellStep(row, BodyKeys, NotNull);
    assert BodyKeys[1..] == ["content", "요약"];
    FirstCellStep(row, ["content", "요약"], NotNull);
    assert ["content", "요약"][1..] == ["요약"];
    FirstCellStep(row, ["요약"], NotNull);
    assert ["요약"][1..] == [];
  }

  /**
   * The front matter dictionary of `create_post_content`: fixed layout,
   * categories, tags and author, the row's title, and `source_url` added
   * when a link column has a value.
   */
  method BuildFrontMatter(row: Row, dateStr: string) returns (frontMatter: FrontMatter)
    ensures frontMatter == FrontMatterOf(row, dateStr)
  {
    var title := if "제목" in row then Str(row["제목"]) else if "title" in row then Str(row["title"]) else "AI News";
    frontMatter := FrontMatter("post", title, dateStr, ["ai", "news"], ["google", "crawling", "ai"],
                               "AI News Crawler", None);
    if "링크" in row && NotNull(row["링크"]) {
      frontMatter := frontMatter.(sourceUrl := Some(Str(row["링크"])));
    } else if "url" in row && NotNull(row["url"]) {
      frontMatter := frontMatter.(sourceUrl := Some(Str(row["url"])));
    }
    RowTitlePrecedence(row, "AI News");
    SourcePrecedence(row);
  }

  /**
   * `create_post_content(row, date_str)`: the text is built piece by piece:
   * front matter, heading, body paragraph, link line, footer.
   */
  method CreatePostContent(row: Row, dateStr: string, dump: FrontMatter -> string) returns (content: string)
    ensures content == PostContent(row, dateStr, dump)
  {
    var frontMatter := BuildFrontMatter(row, dateStr);
    var yamlHeader := dump(frontMatter);
    content := "---\n" + yamlHeader + "---\n\n";
    content := content + "# " + frontMatter.title + "\n\n";
    assert content == Header(frontMatter, dump);
    content := AppendBody(content, row);
    content := AppendLink(content, frontMatter);
    content := content + Footer;
  }

  /** The body paragraph of `create_post_content`: `내용`, else `content`, else `요약`, when not null. */
  method AppendBody(content: string, row: Row) returns (extended: string)
    ensures extended == content + BodyPart(row)
  {
    extended := content;
    if "내용" in row && NotNull(row["내용"]) {
      extended := extended + Str(row["내용"]) + "\n\n";
    } else if "content" in row && NotNull(row["content"]) {
      extended := extended + Str(row["content"]) + "\n\n";
    } else if "요약" in row && NotNull(row["요약"]) {
      extended := extended + Str(row["요약"]) + "\n\n";
    }
    BodyPrecedence(row);
  }

  /** The link line of `create_post_content`, written when the source URL is set and not empty. */
  method AppendLink(content: string, frontMatter: FrontMatter) returns (extended: string)
    ensures extended == content + LinkPart(frontMatter)
  {
    extended := content;
    if frontMatter.sourceUrl.Some? && frontMatter.sourceUrl.value != "" {
      extended := extended + "[원문 보기](" + frontMatter.sourceUrl.value + ")\n\n";
    }
  }

  // ---------------------------------------------------------------------
  // Files

  /** The part of the file system the scripts touch: path to file text. */
  class FileStore {
    var files: map<string, string>

    constructor(initial: map<string, string>)
      ensures files == initial
    {
      files := initial;
    }

    /** `os.path.exists(path)`. */
    predicate Exists(path: string)
      reads this
    {
      path in files
    }

    /**
     * `open(path, 'w').write(text)`: `ok` is whether the operating system
     * accepts the write; a refused write raises and leaves no file.
     */
    method Write(path: string, text: string, ok: bool)
      modifies this
      ensures ok ==> files == old(files)[path := text]
      ensures !ok ==> files == old(files)
    {
      if ok {
        files := files[path := text];
      }
    }
  }

  /** `os.path.join(dir, name)`. */
  function PathJoin(dir: string, name: string): string {
    if name != [] && name[0] == '/' then name
    else if dir == [] || dir[|dir| - 1] == '/' then dir + name
    else dir + "/" + name
  }

  /** `{date}-{slug}.md` for suffix 0, `{date}-{slug}-{k}.md` for suffix `k >= 1`. */
  function CandidateName(dateStr: string, slug: string, suffix: nat): string {
    if suffix == 0 then dateStr + "-" + slug + ".md"
    else dateStr + "-" + slug + "-" + NatToString(suffix) + ".md"
  }

  function CandidatePath(dir: string, dateStr: string, slug: string, suffix: nat): string {
    PathJoin(dir, CandidateName(dateStr, slug, suffix))
  }

  /** Different suffixes name different files (for a date that does not start with `/`). */
  lemma CandidateNameInjective(dateStr: string, slug: string, a: nat, b: nat)
    requires CandidateName(dateStr, slug, a) == CandidateName(dateStr, slug, b)
    ensures a == b
  {
    var front := dateStr + "-" + slug + "-";
    if a != 0 && b != 0 {
      var x := CandidateName(dateStr, slug, a);
      var y := CandidateName(dateStr, slug, b);
      assert x[|front|..|x| - 3] == NatToString(a);
      assert y[|front|..|y| - 3] == NatToString(b);
      NatToStringInjective(a, b);
    }
  }

  lemma CandidatePathInjective(dir: string, dateStr: string, slug: string, a: nat, b: nat)
    requires dateStr != [] && dateStr[0] != '/'
    ensures CandidatePath(dir, dateStr, slug, a) == CandidatePath(dir, dateStr, slug, b) ==> a == b
  {
    if CandidatePath(dir, dateStr, slug, a) == CandidatePath(dir, dateStr, slug, b) {
      CandidatePathsEqual(dir, dateStr, slug, a, b);
    }
  }

  lemma CandidatePathsEqual(dir: string, dateStr: string, slug: string, a: nat, b: nat)
    requires dateStr != [] && dateStr[0] != '/'
    requires CandidatePath(dir, dateStr, slug, a) == CandidatePath(dir, dateStr, slug, b)
    ensures a == b
  {
    var x := CandidateName(dateStr, slug, a);
    var y := CandidateName(dateStr, slug, b);
    assert x[0] == dateStr[0] && y[0] == dateStr[0];
    var p := if dir == [] || dir[|dir| - 1] == '/' then dir else dir + "/";
    assert CandidatePath(dir, dateStr, slug, a) == p + x;
    assert CandidatePath(dir, dateStr, slug, b) == p + y;
    assert x == (p + x)[|p|..];
    assert y == (p + y)[|p|..];
    CandidateNameInjective(dateStr, slug, a, b);
  }

  /** The first `n` candidate paths. */
  ghost function Candidates(dir: string, dateStr: string, slug: string, n: nat): set<string> {
    set k | 0 <= k < n :: CandidatePath(dir, dateStr, slug, k)
  }

  lemma {:induction false} CandidatesCount(dir: string, dateStr: string, slug: string, n: nat)
    requires dateStr != [] && dateStr[0] != '/'
    ensures |Candidates(dir, dateStr, slug, n)| == n
  {
    if n == 0 {
      assert Candidates(dir, dateStr, slug, n) == {};
    } else {
      hide Candidates;
      hide CandidatePath;
      CandidatesCount(dir, dateStr, slug, n - 1);
      CandidatesSnoc(dir, dateStr, slug, n - 1);
    }
  }

  /** The next candidate path is new. */
  lemma CandidatesSnoc(dir: string, dateStr: string, slug: string, n: nat)
    requires dateStr != [] && dateStr[0] != '/'
    ensures CandidatePath(dir, dateStr, slug, n) !in Candidates(dir, dateStr, slug, n)
    ensures Candidates(dir, dateStr, slug, n + 1)
         == Candidates(dir, dateStr, slug, n) + {CandidatePath(dir, dateStr, slug, n)}
  {
    hide CandidatePath;
    var prev := Candidates(dir, dateStr, slug, n);
    var last := CandidatePath(dir, dateStr, slug, n);
    forall k | 0 <= k < n
      ensures CandidatePath(dir, dateStr, slug, k) != last
    {
      CandidatePathInjective(dir, dateStr, slug, k, n);
    }
  }

  /** Pigeonhole: no more candidates can all be taken than there are files. */
  lemma CandidatesBound(existing: set<string>, dir: string, dateStr: string, slug: string, n: nat)
    requires dateStr != [] && dateStr[0] != '/'
    requires forall k :: 0 <= k < n ==> CandidatePath(dir, dateStr, slug, k) in existing
    ensures n <= |existing|
  {
    CandidatesCount(dir, dateStr, slug, n);
    var c := Candidates(dir, dateStr, slug, n);
    assert existing == c + (existing - c);
  }

  /**
   * The collision loop: the plain name when it is free, else the name with
   * the smallest suffix `1, 2, ...` not yet taken. The loop ends because
   * the store holds finitely many files.
   */
  method ChooseFilePath(fs: FileStore, outputDir: string, dateStr: string, cleanTitle: string)
    returns (filepath: string, suffix: nat)
    requires dateStr != [] && dateStr[0] != '/'
    ensures filepath == CandidatePath(outputDir, dateStr, cleanTitle, suffix)
    ensures filepath !in fs.files
    ensures forall k :: 0 <= k < suffix ==> CandidatePath(outputDir, dateStr, cleanTitle, k) in fs.files
  {
    var filename := CandidateName(dateStr, cleanTitle, 0);
    filepath := PathJoin(outputDir, filename);
    var counter := 1;
    while fs.Exists(filepath)
      invariant counter >= 1
      invariant filepath == CandidatePath(outputDir, dateStr, cleanTitle, counter - 1)
      invariant forall k :: 0 <= k < counter - 1 ==> CandidatePath(outputDir, dateStr, cleanTitle, k) in fs.files
      decreases |fs.files.Keys| - (counter - 1)
    {
      CandidatesBound(fs.files.Keys, outputDir, dateStr, cleanTitle, counter);
      filename := dateStr + "-" + cleanTitle + "-" + NatToString(counter) + ".md";
      filepath := PathJoin(outputDir, filename);
      counter := counter + 1;
    }
    suffix := counter - 1;
  }

  /** The slug of row `index`: its title (or the default title) cleaned. */
  function SlugOf(row: Row, index: nat): string {
    CleanFilename(RowTitle(row, DefaultTitle(index)))
  }

  /** The slugs of the rows of a sheet, in row order. */
  function Slugs(rows: seq<Row>): (r: seq<string>)
    ensures |r| == |rows|
  {
    if rows == [] then [] else Slugs(rows[..|rows| - 1]) + [SlugOf(rows[|rows| - 1], |rows| - 1)]
  }

  lemma {:induction false} SlugsAt(rows: seq<Row>, i: nat)
    requires i < |rows|
    ensures Slugs(rows)[i] == SlugOf(rows[i], i)
    decreases |rows|
  {
    if i < |rows| - 1 {
      SlugsAt(rows[..|rows| - 1], i);
    }
  }

  /** The post texts of the rows of a sheet, in row order. */
  function Posts(rows: seq<Row>, postDate: string, dump: FrontMatter -> string): (r: seq<string>)
    ensures |r| == |rows|
  {
    if rows == [] then [] else Posts(rows[..|rows| - 1], postDate, dump) + [PostContent(rows[|rows| - 1], postDate, dump)]
  }

  lemma {:induction false} PostsAt(rows: seq<Row>, postDate: string, dump: FrontMatter -> string, i: nat)
    requires i < |rows|
    ensures Posts(rows, postDate, dump)[i] == PostContent(rows[i], postDate, dump)
    decreases |rows|
  {
    if i < |rows| - 1 {
      PostsAt(rows[..|rows| - 1], postDate, dump, i);
    }
  }

  /** The paths of candidates `suffixes[i]` of `slugs[i]`, for every `i`. */
  function CandidatePaths(dir: string, dateStr: string, slugs: seq<string>, suffixes: seq<nat>): (r: seq<string>)
    requires |slugs| == |suffixes|
    ensures |r| == |slugs|
  {
    if slugs == [] then []
    else
      var n := |slugs| - 1;
      CandidatePaths(dir, dateStr, slugs[..n], suffixes[..n]) + [CandidatePath(dir, dateStr, slugs[n], suffixes[n])]
  }

  lemma {:induction false} CandidatePathsAt(dir: string, dateStr: string, slugs: seq<string>, suffixes: seq<nat>, i: nat)
    requires |slugs| == |suffixes| && i < |slugs|
    ensures CandidatePaths(dir, dateStr, slugs, suffixes)[i] == CandidatePath(dir, dateStr, slugs[i], suffixes[i])
    decreases |slugs|
  {
    var n := |slugs| - 1;
    var front := CandidatePaths(dir, dateStr, slugs[..n], suffixes[..n]);
    assert CandidatePaths(dir, dateStr, slugs, suffixes) == front + [CandidatePath(dir, dateStr, slugs[n], suffixes[n])];
    if i < n {
      CandidatePathsAt(dir, dateStr, slugs[..n], suffixes[..n], i);
      assert slugs[..n][i] == slugs[i] && suffixes[..n][i] == suffixes[i];
    }
  }

  /** `m` after writing `values[i]` under `keys[i]`, for `i` in order. */
  function Extend(m: map<string, string>, keys: seq<string>, values: seq<string>): map<string, string>
    requires |keys| == |values|
  {
    if keys == [] then m
    else
      var n := |keys| - 1;
      Extend(m, keys[..n], values[..n])[keys[n] := values[n]]
  }

  /** Writing adds exactly the written keys. */
  lemma {:induction false} ExtendKeys(m: map<string, string>, keys: seq<string>, values: seq<string>)
    requires |keys| == |values|
    ensures Extend(m, keys, values).Keys == m.Keys + (set k | k in keys)
    decreases |keys|
  {
    if keys != [] {
      var n := |keys| - 1;
      ExtendKeys(m, keys[..n], values[..n]);
      assert keys == keys[..n] + [keys[n]];
      assert (set k | k in keys) == (set k | k in keys[..n]) + {keys[n]};
    }
  }

  /**
   * Writing distinct new keys: each holds its own value, and every key that
   * was there keeps its value.
   */
  lemma {:induction false} ExtendContents(m: map<string, string>, keys: seq<string>, values: seq<string>)
    requires |keys| == |values|
    requires forall i :: 0 <= i < |keys| ==> keys[i] !in m
    requires forall i, j :: 0 <= i < j < |keys| ==> keys[i] != keys[j]
    ensures forall i :: 0 <= i < |keys| ==> keys[i] in Extend(m, keys, values) && Extend(m, keys, values)[keys[i]] == values[i]
    ensures forall p :: p in m ==> p in Extend(m, keys, values) && Extend(m, keys, values)[p] == m[p]
    ensures forall p :: p in Extend(m, keys, values) ==> p in m || p in keys
    decreases |keys|
  {
    if keys != [] {
      var n := |keys| - 1;
      ExtendContents(m, keys[..n], values[..n]);
      assert keys == keys[..n] + [keys[n]];
    }
  }

  /** The file names `excel_to_markdown` may choose for row `index` of a sheet. */
  ghost predicate IsNameFor(path: string, outputDir: string, dateStr: string, row: Row, index: nat) {
    exists k: nat :: path == CandidatePath(outputDir, dateStr, SlugOf(row, index), k)
  }

  /**
   * The body of the row loop: title, slug, a free file name, the post text,
   * and the write.
   */
  method WritePost(fs: FileStore, row: Row, index: nat, outputDir: string, dateStr: string, postDate: string,
                   dump: FrontMatter -> string, ok: bool)
    returns (filepath: string, cleanTitle: string, suffix: nat, postContent: string)
    requires dateStr != [] && dateStr[0] != '/'
    modifies fs
    ensures cleanTitle == SlugOf(row, index)
    ensures filepath == CandidatePath(outputDir, dateStr, cleanTitle, suffix)
    ensures filepath !in old(fs.files)
    ensures postContent == PostContent(row, postDate, dump)
    ensures ok ==> fs.files == old(fs.files)[filepath := postContent]
    ensures !ok ==> fs.files == old(fs.files)
  {
    var title := if "제목" in row then Str(row["제목"])
                 else if "title" in row then Str(row["title"])
                 else "AI News " + NatToString(index + 1);
    RowTitlePrecedence(row, DefaultTitle(index));
    cleanTitle := CleanFilename(title);
    filepath, suffix := ChooseFilePath(fs, outputDir, dateStr, cleanTitle);
    postContent := CreatePostContent(row, postDate, dump);
    fs.Write(filepath, postContent, ok);
  }

  /** What the row loop of `excel_to_markdown` has done after `index` rows. */
  ghost predicate Progress(start: map<string, string>, files: map<string, string>, df: seq<Row>, index: nat,
                           created: seq<string>, slugs: seq<string>, suffixes: seq<nat>, posts: seq<string>,
                           outputDir: string, dateStr: string, postDate: string, dump: FrontMatter -> string)
  {
    && index <= |df|
    && |created| == index && |slugs| == index && |suffixes| == index && |posts| == index
    && posts == Posts(df[..index], postDate, dump)
    && slugs == Slugs(df[..index])
    && created == CandidatePaths(outputDir, dateStr, slugs, suffixes)
    && (forall i :: 0 <= i < index ==> created[i] !in start)
    && (forall i, j :: 0 <= i < j < index ==> created[i] != created[j])
    && files == Extend(start, created, posts)
  }

  lemma ProgressStep(start: map<string, string>, files: map<string, string>, df: seq<Row>, index: nat,
                     created: seq<string>, slugs: seq<string>, suffixes: seq<nat>, posts: seq<string>,
                     outputDir: string, dateStr: string, postDate: string, dump: FrontMatter -> string,
                     filepath: string, cleanTitle: string, suffix: nat, postContent: string)
    requires Progress(start, files, df, index, created, slugs, suffixes, posts, outputDir, dateStr, postDate, dump)
    requires index < |df|
    requires cleanTitle == SlugOf(df[index], index)
    requires filepath == CandidatePath(outputDir, dateStr, cleanTitle, suffix)
    requires filepath !in files
    requires postContent == PostContent(df[index], postDate, dump)
    ensures Progress(start, files[filepath := postContent], df, index + 1, created + [filepath], slugs + [cleanTitle],
                     suffixes + [suffix], posts + [postContent], outputDir, dateStr, postDate, dump)
  {
    ExtendKeys(start, created, posts);
    FreshAppend(start, created, filepath);
    ExtendSnoc(start, created, posts, filepath, postContent);
    SlugsSnoc(df, index);
    PostsSnoc(df, index, postDate, dump);
    CandidatePathsSnoc(outputDir, dateStr, slugs, suffixes, cleanTitle, suffix);
  }

  lemma ExtendSnoc(m: map<string, string>, keys: seq<string>, values: seq<string>, k: string, v: string)
    requires |keys| == |values|
    ensures Extend(m, keys + [k], values + [v]) == Extend(m, keys, values)[k := v]
  {
    assert (keys + [k])[..|keys|] == keys;
    assert (values + [v])[..|values|] == values;
  }

  lemma SlugsSnoc(df: seq<Row>, index: nat)
    requires index < |df|
    ensures Slugs(df[..index + 1]) == Slugs(df[..index]) + [SlugOf(df[index], index)]
  {
    assert df[..index + 1][..index] == df[..index];
  }

  lemma PostsSnoc(df: seq<Row>, index: nat, postDate: string, dump: FrontMatter -> string)
    requires index < |df|
    ensures Posts(df[..index + 1], postDate, dump) == Posts(df[..index], postDate, dump) + [PostContent(df[index], postDate, dump)]
  {
    assert df[..index + 1][..index] == df[..index];
  }

  lemma CandidatePathsSnoc(dir: string, dateStr: string, slugs: seq<string>, suffixes: seq<nat>, slug: string, k: nat)
    requires |slugs| == |suffixes|
    ensures CandidatePaths(dir, dateStr, slugs + [slug], suffixes + [k])
            == CandidatePaths(dir, dateStr, slugs, suffixes) + [CandidatePath(dir, dateStr, slug, k)]
  {
    assert (slugs + [slug])[..|slugs|] == slugs;
    assert (suffixes + [k])[..|suffixes|] == suffixes;
  }

  /** Appending a name that is neither in `start` nor already listed keeps the list fresh and distinct. */
  lemma FreshAppend(start: map<string, string>, created: seq<string>, filepath: string)
    requires forall i :: 0 <= i < |created| ==> created[i] !in start
    requires forall i, j :: 0 <= i < j < |created| ==> created[i] != created[j]
    requires filepath !in start && filepath !in created
    ensures forall i :: 0 <= i < |created| + 1 ==> (created + [filepath])[i] !in start
    ensures forall i, j :: 0 <= i < j < |created| + 1 ==> (created + [filepath])[i] != (created + [filepath])[j]
  {
    var created' := created + [filepath];
    forall i, j | 0 <= i < j < |created| + 1
      ensures created'[i] != created'[j]
    {
      assert created'[i] == created[i];
      assert j < |created| ==> created'[j] == created[j];
      assert j == |created| ==> created'[j] == filepath;
    }
  }

  lemma ProgressDone(start: map<string, string>, files: map<string, string>, df: seq<Row>, n: nat,
                     created: seq<string>, slugs: seq<string>, suffixes: seq<nat>, posts: seq<string>,
                     outputDir: string, dateStr: string, postDate: string, dump: FrontMatter -> string)
    requires Progress(start, files, df, n, created, slugs, suffixes, posts, outputDir, dateStr, postDate, dump)
    ensures |created| == n
    ensures forall i :: 0 <= i < |created| ==> created[i] !in start
    ensures forall i, j :: 0 <= i < j < |created| ==> created[i] != created[j]
    ensures forall i :: 0 <= i < |created| ==>
              && IsNameFor(created[i], outputDir, dateStr, df[i], i)
              && created[i] in files
              && files[created[i]] == PostContent(df[i], postDate, dump)
    ensures forall p :: p in start ==> p in files && files[p] == start[p]
    ensures forall p :: p in files ==> p in start || p in created
  {
    ExtendContents(start, created, posts);
    forall i | 0 <= i < |created|
      ensures IsNameFor(created[i], outputDir, dateStr, df[i], i)
      ensures files[created[i]] == PostContent(df[i], postDate, dump)
    {
      ProgressAt(start, files, df, n, created, slugs, suffixes, posts, outputDir, dateStr, postDate, dump, i);
    }
  }

  lemma ProgressAt(start: map<string, string>, files: map<string, string>, df: seq<Row>, n: nat,
                   created: seq<string>, slugs: seq<string>, suffixes: seq<nat>, posts: seq<string>,
                   outputDir: string, dateStr: string, postDate: string, dump: FrontMatter -> string, i: nat)
    requires Progress(start, files, df, n, created, slugs, suffixes, posts, outputDir, dateStr, postDate, dump)
    requires i < n
    ensures created[i] == CandidatePath(outputDir, dateStr, SlugOf(df[i], i), suffixes[i])
    ensures posts[i] == PostContent(df[i], postDate, dump)
  {
    hide Extend;
    hide PostContent;
    hide CandidatePath;
    hide SlugOf;
    var rows := df[..n];
    assert rows[i] == df[i];
    SlugsAt(rows, i);
    PostsAt(rows, postDate, dump, i);
    CandidatePathsAt(outputDir, dateStr, slugs, suffixes, i);
  }

  /**
   * What `excel_to_markdown` meets on one spreadsheet: `Unreadable` when
   * `pd.read_excel` raises; otherwise its rows and the first row, if any,
   * whose post file the operating system refuses to write (no permission,
   * a full disk, a name longer than the file-name limit).
   */
  datatype Workbook = Unreadable | Sheet(rows: seq<Row>, writeFailsAt: Option<nat>)

  /** The posts written before the conversion stops: every row, or the rows before the refused write. */
  function WrittenRows(workbook: Workbook): (n: nat)
    ensures workbook.Sheet? ==> n <= |workbook.rows|
  {
    match workbook
    case Unreadable => 0
    case Sheet(rows, failsAt) => if failsAt.Some? && failsAt.value < |rows| then failsAt.value else |rows|
  }

  /** The spreadsheet is read and every one of its posts written. */
  predicate Completes(workbook: Workbook) {
    workbook.Sheet? && !(workbook.writeFailsAt.Some? && workbook.writeFailsAt.value < |workbook.rows|)
  }

  /** How many paths `excel_to_markdown` returns: one per row when it completes, none after an exception. */
  function PostsMade(workbook: Workbook): (n: nat)
    ensures n > 0 ==> Completes(workbook) && n == |workbook.rows| == WrittenRows(workbook)
    ensures Completes(workbook) ==> n == |workbook.rows|
  {
    if Completes(workbook) then |workbook.rows| else 0
  }

  /**
   * `excel_to_markdown(excel_file, output_dir)`: one new post per row, in
   * row order, each under a name no file had before, with the text of
   * `create_post_content`; files already there are left as they were.
   * `written` lists the posts written. An unreadable workbook writes
   * nothing; when the write of row `k` is refused, the posts of rows
   * `0..k-1` stay on disk and no path is returned. `now` is the run's clock.
   */
  method ExcelToMarkdownFile(fs: FileStore, workbook: Workbook, outputDir: string, now: DateTime,
                             dump: FrontMatter -> string)
    returns (createdFiles: seq<string>, ghost written: seq<string>)
    requires now.Valid()
    modifies fs
    ensures |written| == WrittenRows(workbook)
    ensures createdFiles == if Completes(workbook) then written else []
    ensures forall i :: 0 <= i < |written| ==> written[i] !in old(fs.files)
    ensures forall i, j :: 0 <= i < j < |written| ==> written[i] != written[j]
    ensures forall i :: 0 <= i < |written| ==>
              && workbook.Sheet?
              && IsNameFor(written[i], outputDir, Iso(now.date), workbook.rows[i], i)
              && written[i] in fs.files
              && fs.files[written[i]] == PostContent(workbook.rows[i], Stamp(now) + " +0900", dump)
    ensures forall p :: p in old(fs.files) ==> p in fs.files && fs.files[p] == old(fs.files)[p]
    ensures forall p :: p in fs.files ==> p in old(fs.files) || p in written
  {
    hide PostContent;
    hide CandidatePath;
    hide SlugOf;
    if workbook.Unreadable? {
      return [], [];
    }
    var df := workbook.rows;
    var dateStr := Iso(now.date);
    var postDate := Stamp(now) + " +0900";
    var created: seq<string> := [];
    ghost var slugs: seq<string> := [];
    ghost var suffixes: seq<nat> := [];
    ghost var posts: seq<string> := [];
    var index := 0;
    var failed := false;
    while index < |df| && !failed
      invariant index <= WrittenRows(workbook)
      invariant failed ==> index == WrittenRows(workbook) < |df|
      invariant Progress(old(fs.files), fs.files, df, index, created, slugs, suffixes, posts, outputDir, dateStr, postDate, dump)
      decreases |df| - index, !failed
    {
      var ok := workbook.writeFailsAt != Some(index);
      ghost var before := fs.files;
      var filepath, cleanTitle, suffix, postContent := WritePost(fs, df[index], index, outputDir, dateStr, postDate, dump, ok);
      if ok {
        ProgressStep(old(fs.files), before, df, index, created, slugs, suffixes, posts, outputDir, dateStr, postDate, dump,
                     filepath, cleanTitle, suffix, postContent);
        created := created + [filepath];
        slugs := slugs + [cleanTitle];
        suffixes := suffixes + [suffix];
        posts := posts + [postContent];
        index := index + 1;
      } else {
        // the refused write raises out of the loop into the `except`, which returns `[]`
        failed := true;
      }
    }
    ProgressDone(old(fs.files), fs.files, df, index, created, slugs, suffixes, posts, outputDir, dateStr, postDate, dump);
    createdFiles, written := if failed then [] else created, created;
  }
}
