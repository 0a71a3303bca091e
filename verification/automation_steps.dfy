/**
 * The decision logic `scripts/main_automation.py` and
 * `scripts/main_automation_oauth.py` share: the git steps of
 * `commit_and_push_changes` with their short-circuit, the "nothing to
 * commit" rule, the post count of a run, and the post titles read back from
 * the names of the created files. Git is an input: `git(command)` is what
 * running that command reports (`run_git_command`'s success flag and output).
 */
module AutomationSteps {
  import opened Options
  import opened Chars
  import opened Substrings
  import opened Decimal
  import opened Dates
  import opened ExcelToMarkdown

  datatype GitResult = GitResult(success: bool, output: string)

  const AddCommand: string := "git add ."
  const PushCommand: string := "git push origin master"
  const NothingToCommit: string := "nothing to commit"

  /** `f"Add {len(created_files)} new AI news posts - {now:%Y-%m-%d %H:%M}"`. */
  function CommitMessage(count: nat, now: DateTime): string
    requires now.Valid()
  {
    "Add " + NatToString(count) + " new AI news posts - " + MinuteStamp(now)
  }

  function CommitCommand(count: nat, now: DateTime): string
    requires now.Valid()
  {
    "git commit -m \"" + CommitMessage(count, now) + "\""
  }

  /** A commit stops the upload unless it succeeded or reported that there was nothing to commit. */
  predicate CommitFatal(r: GitResult) {
    !r.success && !Contains(r.output, NothingToCommit)
  }

  /** A commit that failed only because the tree was clean lets the upload go on. */
  lemma NothingToCommitTolerated(r: GitResult, before: string, after: string)
    requires r.output == before + NothingToCommit + after
    ensures !CommitFatal(r)
  {
    ContainsMiddle(before, NothingToCommit, after);
  }

  /** The commands `commit_and_push_changes` runs: each step only after the previous one passed. */
  function GitRun(git: string -> GitResult, count: nat, now: DateTime): (commands: seq<string>)
    requires now.Valid()
    ensures 1 <= |commands| <= 3 && commands[0] == AddCommand
  {
    if !git(AddCommand).success then [AddCommand]
    else if CommitFatal(git(CommitCommand(count, now))) then [AddCommand, CommitCommand(count, now)]
    else [AddCommand, CommitCommand(count, now), PushCommand]
  }

  /** Whether the upload succeeds: add and push succeeded and the commit was not fatal. */
  predicate GitSucceeds(git: string -> GitResult, count: nat, now: DateTime)
    requires now.Valid()
  {
    git(AddCommand).success && !CommitFatal(git(CommitCommand(count, now))) && git(PushCommand).success
  }

  /** How an upload ends: the first failing step with its output, or success. */
  datatype UploadOutcome = AddFailed(output: string) | CommitFailed(output: string) | PushFailed(output: string) | Uploaded

  /** The outcome of `commit_and_push_changes`: the first step that failed, in the order add, commit, push. */
  function Upload(git: string -> GitResult, count: nat, now: DateTime): (outcome: UploadOutcome)
    requires now.Valid()
    ensures outcome.Uploaded? <==> GitSucceeds(git, count, now)
    ensures outcome.AddFailed? <==> !git(AddCommand).success
    ensures outcome.PushFailed? ==> git(AddCommand).success && !CommitFatal(git(CommitCommand(count, now)))
  {
    var add, commit, push := git(AddCommand), git(CommitCommand(count, now)), git(PushCommand);
    if !add.success then AddFailed(add.output)
    else if CommitFatal(commit) then CommitFailed(commit.output)
    else if !push.success then PushFailed(push.output)
    else Uploaded
  }

  /**
   * The git steps of `commit_and_push_changes`: add, then commit, then
   * push, each run only after the previous one passed.
   */
  method RunGitSteps(git: string -> GitResult, count: nat, now: DateTime)
    returns (outcome: UploadOutcome, commands: seq<string>)
    requires now.Valid()
    ensures outcome == Upload(git, count, now)
    ensures commands == GitRun(git, count, now)
  {
    commands := [AddCommand];
    var add := git(AddCommand);
    if !add.success {
      outcome := AddFailed(add.output);
    } else {
      var commitCommand := CommitCommand(count, now);
      commands := commands + [commitCommand];
      var commit := git(commitCommand);
      if CommitFatal(commit) {
        outcome := CommitFailed(commit.output);
      } else {
        commands := commands + [PushCommand];
        var push := git(PushCommand);
        if !push.success {
          outcome := PushFailed(push.output);
        } else {
          outcome := Uploaded;
        }
      }
    }
  }

  /** How a conversion ends: no spreadsheet found, no post made, or `n` posts made. */
  datatype ConversionOutcome = NoSpreadsheet | NothingCreated | Created(count: nat)

  /** The outcome of `process_excel_files` for the spreadsheets found. */
  function Conversion(workbooks: seq<Workbook>): (outcome: ConversionOutcome)
    ensures outcome.Created? <==> TotalPosts(workbooks) > 0
    ensures outcome.Created? ==> outcome.count == TotalPosts(workbooks)
    ensures outcome.NoSpreadsheet? <==> workbooks == []
  {
    if workbooks == [] then NoSpreadsheet
    else if TotalPosts(workbooks) == 0 then NothingCreated
    else Created(TotalPosts(workbooks))
  }

  /**
   * The short-circuit: an upload that succeeds ran all three commands, in
   * order; a failed add runs nothing else; a fatal commit is never followed
   * by a push.
   */
  lemma GitRunShortCircuit(git: string -> GitResult, count: nat, now: DateTime)
    requires now.Valid()
    ensures GitSucceeds(git, count, now) ==> GitRun(git, count, now) == [AddCommand, CommitCommand(count, now), PushCommand]
    ensures !git(AddCommand).success ==> GitRun(git, count, now) == [AddCommand]
    ensures PushCommand in GitRun(git, count, now) <==> git(AddCommand).success && !CommitFatal(git(CommitCommand(count, now)))
  {
    assert CommitCommand(count, now) != PushCommand by {
      assert CommitCommand(count, now)[4] != PushCommand[4];
    }
    assert AddCommand != PushCommand;
  }

  /**
   * How many paths converting the workbooks returns: one per row of each
   * spreadsheet converted in full, none for one that could not be read or
   * whose conversion a refused write cut short.
   */
  function TotalPosts(workbooks: seq<Workbook>): nat {
    if workbooks == [] then 0
    else
      var n := |workbooks| - 1;
      TotalPosts(workbooks[..n]) + PostsMade(workbooks[n])
  }

  lemma TotalPostsSnoc(workbooks: seq<Workbook>, k: nat)
    requires k < |workbooks|
    ensures TotalPosts(workbooks[..k + 1]) == TotalPosts(workbooks[..k]) + PostsMade(workbooks[k])
  {
    assert workbooks[..k + 1][..k] == workbooks[..k];
  }

  /** `os.path.basename`: the part after the last `/`. */
  function Basename(path: string): (name: string)
    ensures '/' !in name
  {
    if path == [] || path[|path| - 1] == '/' then []
    else Basename(path[..|path| - 1]) + [path[|path| - 1]]
  }

  /**
   * The title `send_blog_update_notification` reads from a post's path:
   * `basename.replace('.md', '').split('-', 3)`, and when that gives four
   * parts, the fourth with hyphens as spaces, title-cased.
   */
  function PostTitle(path: string): Option<string> {
    var parts := SplitMax(Replace(Basename(path), ".md", ""), "-", 3);
    if |parts| > 3 then Some(TitleCase(Replace(parts[3], "-", " "))) else None
  }

  /** The `post_titles` list: the titles of those paths that have one, in order. */
  function PostTitles(paths: seq<string>): (titles: seq<string>)
    ensures |titles| <= |paths|
  {
    if paths == [] then []
    else
      var n := |paths| - 1;
      PostTitles(paths[..n]) + (match PostTitle(paths[n]) case Some(t) => [t] case None => [])
  }

  lemma PostTitlesSnoc(paths: seq<string>, k: nat)
    requires k < |paths|
    ensures PostTitles(paths[..k + 1]) == PostTitles(paths[..k]) + (match PostTitle(paths[k]) case Some(t) => [t] case None => [])
  {
    assert paths[..k + 1][..k] == paths[..k];
  }

  /** What follows the date in the name of a post: the slug, then `-k` for the `k`-th clash. */
  function Stem(slug: string, suffix: nat): string {
    if suffix == 0 then slug else slug + "-" + NatToString(suffix)
  }

  /** The characters a slug from `clean_filename` is made of. */
  predicate IsSlugChar(c: char) {
    IsWordChar(c) || c == '-'
  }

  lemma {:induction false} BasenameJoin(dir: string, name: string)
    requires '/' !in name
    ensures Basename(dir + "/" + name) == name
    decreases |name|
  {
    var s := dir + "/" + name;
    if name == [] {
      assert s[|s| - 1] == '/';
    } else {
      var n := |name| - 1;
      assert s[|s| - 1] == name[n];
      assert s[..|s| - 1] == dir + "/" + name[..n];
      BasenameJoin(dir, name[..n]);
      assert name[..n] + [name[n]] == name;
    }
  }

  lemma {:induction false} ReplaceSuffixOnly(x: string, suffix: string)
    requires |suffix| > 0 && suffix[0] !in x
    ensures Replace(x + suffix, suffix, "") == x
    decreases |x|
  {
    if x == [] {
      assert x + suffix == suffix;
      assert suffix[|suffix|..] == [];
    } else {
      assert !(suffix <= x + suffix) by {
        assert (x + suffix)[0] == x[0];
      }
      assert (x + suffix)[1..] == x[1..] + suffix;
      ReplaceSuffixOnly(x[1..], suffix);
    }
  }

  /** One split of `split('-', k)`: the text before the first hyphen, then the rest split once fewer. */
  lemma SplitMaxStep(a: string, rest: string, k: nat)
    requires '-' !in a && k > 0
    ensures SplitMax(a + "-" + rest, "-", k) == [a] + SplitMax(rest, "-", k - 1)
  {
    var s := a + "-" + rest;
    IndexOfAfter(a, "-", rest);
    assert s[..|a|] == a;
    assert s[|a| + 1..] == rest;
  }

  lemma SplitFourth(a: string, b: string, c: string, rest: string)
    requires '-' !in a && '-' !in b && '-' !in c
    ensures SplitMax(a + "-" + (b + "-" + (c + "-" + rest)), "-", 3) == [a, b, c, rest]
  {
    SplitMaxStep(c, rest, 1);
    SplitMaxStep(b, c + "-" + rest, 2);
    SplitMaxStep(a, b + "-" + (c + "-" + rest), 3);
  }

  /** A post name's date part splits into its three fields. */
  lemma IsoRegroup(date: Date, stem: string)
    requires date.Valid()
    ensures var d := Iso(date);
      d + "-" + stem == d[..4] + "-" + (d[5..7] + "-" + (d[8..] + "-" + stem))
  {
    var d := Iso(date);
    var y, m, dd := d[..4], d[5..7], d[8..];
    assert d == y + "-" + m + "-" + dd;
    AppendAssoc(y + "-" + m + "-", dd, "-" + stem);
    AppendAssoc(y + "-" + m, "-", dd + "-" + stem);
    AppendAssoc(y + "-", m, "-" + (dd + "-" + stem));
    AppendAssoc(y, "-", m + "-" + (dd + "-" + stem));
    AppendAssoc(dd, "-", stem);
    AppendAssoc(d, "-", stem);
  }

  lemma DigitsHaveNoSeparators(s: string)
    requires AllDigits(s)
    ensures '-' !in s && '.' !in s && '/' !in s
  {
  }

  /**
   * Reading a title back from a post written by `excel_to_markdown` gives the
   * slug (with its clash counter, if any) as words: every created post has a
   * title, and it is the stem with hyphens turned into spaces, title-cased.
   */
  lemma PostTitleOfPost(dir: string, date: Date, slug: string, suffix: nat)
    requires date.Valid()
    requires dir != [] && dir[|dir| - 1] != '/'
    requires forall i :: 0 <= i < |slug| ==> IsSlugChar(slug[i])
    ensures PostTitle(CandidatePath(dir, Iso(date), slug, suffix)) == Some(TitleCase(Replace(Stem(slug, suffix), "-", " ")))
  {
    var d := Iso(date);
    var stem := Stem(slug, suffix);
    var name := CandidateName(d, slug, suffix);
    assert name == d + "-" + stem + ".md" by {
      if suffix > 0 {
        AppendAssoc(d + "-" + slug, "-", NatToString(suffix));
        AppendAssoc(d + "-", slug, "-" + NatToString(suffix));
      }
    }
    assert '/' !in name && name != [] && name[0] != '/' by {
      assert name[0] == d[0];
      DigitsHaveNoSeparators(d[..4]);
      DigitsHaveNoSeparators(d[5..7]);
      DigitsHaveNoSeparators(d[8..]);
      assert d == d[..4] + "-" + d[5..7] + "-" + d[8..];
      assert NatToString(suffix) != [] ==> AllDigits(NatToString(suffix));
      assert forall c :: c in name ==> c in d || c in stem || c in ".md" || c == '-';
    }
    BasenameJoin(dir, name);
    assert CandidatePath(dir, d, slug, suffix) == dir + "/" + name;
    var body := d + "-" + stem;
    assert '.' !in body by {
      DigitsHaveNoSeparators(d[..4]);
      DigitsHaveNoSeparators(d[5..7]);
      DigitsHaveNoSeparators(d[8..]);
      assert d == d[..4] + "-" + d[5..7] + "-" + d[8..];
      assert forall i :: 0 <= i < |stem| ==> stem[i] != '.';
    }
    ReplaceSuffixOnly(body, ".md");
    assert d == d[..4] + "-" + d[5..7] + "-" + d[8..];
    DigitsHaveNoSeparators(d[..4]);
    DigitsHaveNoSeparators(d[5..7]);
    DigitsHaveNoSeparators(d[8..]);
    IsoRegroup(date, stem);
    SplitFourth(d[..4], d[5..7], d[8..], stem);
  }

  /** The directory `excel_to_markdown` writes to when called with its default arguments. */
  const PostsDir: string := "_posts"

  const CompletionHead: string := "전체 자동화 프로세스가 완료되었습니다! 🎉\n\n📊 처리된 포스트: "
  const CompletionTail: string :=
    "개\n🌐 블로그 주소: https://winterkim-bot.github.io/sans\n🔗 GitHub 저장소: https://github.com/winterkim-bot/sans\n\n약 5-10분 후 GitHub Pages에서 업데이트된 블로그를 확인할 수 있습니다."

  /** The report of a successful run, without the blank line and indentation its template has around it. */
  function CompletionText(count: nat): string {
    CompletionHead + NatToString(count) + CompletionTail
  }

  /** A post made by a run: a file under `_posts` named after that day and a slug. */
  ghost predicate IsPostOf(path: string, now: DateTime)
    requires now.Valid()
  {
    exists slug: string, k: nat :: IsSlug(slug) && path == CandidatePath(PostsDir, Iso(now.date), slug, k)
  }

  /**
   * The posts of a run in the working tree: each new, each a post of the
   * run, none twice, and every file that was there before kept as it was.
   */
  ghost predicate FreshPosts(files: seq<string>, before: map<string, string>, after: map<string, string>, now: DateTime)
    requires now.Valid()
  {
    && (forall i :: 0 <= i < |files| ==> files[i] in after && files[i] !in before)
    && (forall i :: 0 <= i < |files| ==> IsPostOf(files[i], now))
    && (forall i, j :: 0 <= i < j < |files| ==> files[i] != files[j])
    && (forall p :: p in before ==> p in after && after[p] == before[p])
  }

  predicate IsSlug(slug: string) {
    forall i :: 0 <= i < |slug| ==> IsSlugChar(slug[i])
  }

  /** Every post a run made has a title in the update mail: one title per post. */
  lemma {:induction false} PostTitlesOfPosts(paths: seq<string>, now: DateTime)
    requires now.Valid()
    requires forall i :: 0 <= i < |paths| ==> IsPostOf(paths[i], now)
    ensures |PostTitles(paths)| == |paths|
  {
    if paths != [] {
      var n := |paths| - 1;
      PostTitlesOfPosts(paths[..n], now);
      var slug: string, k: nat :| IsSlug(slug) && paths[n] == CandidatePath(PostsDir, Iso(now.date), slug, k);
      PostTitleOfPost(PostsDir, now.date, slug, k);
    }
  }

  /** The files `excel_to_markdown` names after a row are posts of the run. */
  lemma NamesArePosts(paths: seq<string>, rows: seq<Row>, now: DateTime)
    requires now.Valid() && |paths| <= |rows|
    requires forall i :: 0 <= i < |paths| ==> IsNameFor(paths[i], PostsDir, Iso(now.date), rows[i], i)
    ensures forall i :: 0 <= i < |paths| ==> IsPostOf(paths[i], now)
  {
    forall i | 0 <= i < |paths|
      ensures IsPostOf(paths[i], now)
    {
      var k: nat :| paths[i] == CandidatePath(PostsDir, Iso(now.date), SlugOf(rows[i], i), k);
      assert IsSlug(SlugOf(rows[i], i));
    }
  }

  /**
   * The returned paths in order: for each spreadsheet converted in full,
   * its posts row by row, after the posts of the spreadsheets before it;
   * each names its row and holds that row's post.
   */
  ghost predicate PostsInOrder(files: seq<string>, workbooks: seq<Workbook>, after: map<string, string>, now: DateTime,
                               dump: FrontMatter -> string)
    requires now.Valid()
  {
    forall k, i :: 0 <= k < |workbooks| && 0 <= i < PostsMade(workbooks[k]) ==> PostAt(files, workbooks, k, i, after, now, dump)
  }

  /** Row `i` of spreadsheet `k` has its post at its place among the returned paths. */
  ghost predicate PostAt(files: seq<string>, workbooks: seq<Workbook>, k: nat, i: nat, after: map<string, string>,
                         now: DateTime, dump: FrontMatter -> string)
    requires now.Valid() && k < |workbooks| && i < PostsMade(workbooks[k])
  {
    var at := TotalPosts(workbooks[..k]) + i;
    && at < |files|
    && IsNameFor(files[at], PostsDir, Iso(now.date), workbooks[k].rows[i], i)
    && files[at] in after
    && after[files[at]] == PostContent(workbooks[k].rows[i], Stamp(now) + " +0900", dump)
  }

  /** Every file the run added to the working tree is a post of the run. */
  ghost predicate OnlyPostsAdded(before: map<string, string>, after: map<string, string>, now: DateTime)
    requires now.Valid()
  {
    forall p :: p in after ==> p in before || IsPostOf(p, now)
  }

  /** No file was added besides `files`. */
  ghost predicate NothingElse(files: seq<string>, before: map<string, string>, after: map<string, string>) {
    forall p :: p in after ==> p in before || p in files
  }

  /** No spreadsheet had its conversion cut short by a refused write. */
  predicate NoWriteFailure(workbooks: seq<Workbook>) {
    forall k :: 0 <= k < |workbooks| ==> workbooks[k].Unreadable? || Completes(workbooks[k])
  }

  /**
   * The loop of `process_excel_files`: `excel_to_markdown` on every
   * spreadsheet in turn, the returned files collected in order. The posts
   * of a spreadsheet cut short by a refused write stay on disk unreturned.
   */
  method ConvertAll(fs: FileStore, workbooks: seq<Workbook>, now: DateTime, dump: FrontMatter -> string)
    returns (allCreatedFiles: seq<string>)
    requires now.Valid()
    modifies fs
    ensures |allCreatedFiles| == TotalPosts(workbooks)
    ensures FreshPosts(allCreatedFiles, old(fs.files), fs.files, now)
    ensures PostsInOrder(allCreatedFiles, workbooks, fs.files, now, dump)
    ensures OnlyPostsAdded(old(fs.files), fs.files, now)
    ensures NoWriteFailure(workbooks) ==> NothingElse(allCreatedFiles, old(fs.files), fs.files)
  {
    allCreatedFiles := [];
    for k := 0 to |workbooks|
      invariant |allCreatedFiles| == TotalPosts(workbooks[..k])
      invariant FreshPosts(allCreatedFiles, old(fs.files), fs.files, now)
      invariant PostsInOrder(allCreatedFiles, workbooks[..k], fs.files, now, dump)
      invariant OnlyPostsAdded(old(fs.files), fs.files, now)
      invariant NoWriteFailure(workbooks[..k]) ==> NothingElse(allCreatedFiles, old(fs.files), fs.files)
    {
      ghost var before := fs.files;
      var created, written := ExcelToMarkdownFile(fs, workbooks[k], PostsDir, now, dump);
      BatchStep(workbooks, k, old(fs.files), before, fs.files, allCreatedFiles, created, written, now, dump);
      allCreatedFiles := allCreatedFiles + created;
    }
    assert workbooks[..|workbooks|] == workbooks;
  }

  /** One pass of the loop of `ConvertAll` keeps its invariants. */
  lemma BatchStep(workbooks: seq<Workbook>, k: nat, start: map<string, string>, before: map<string, string>,
                  after: map<string, string>, earlier: seq<string>, created: seq<string>, written: seq<string>,
                  now: DateTime, dump: FrontMatter -> string)
    requires now.Valid() && k < |workbooks|
    requires |earlier| == TotalPosts(workbooks[..k])
    requires FreshPosts(earlier, start, before, now)
    requires PostsInOrder(earlier, workbooks[..k], before, now, dump)
    requires OnlyPostsAdded(start, before, now)
    requires NoWriteFailure(workbooks[..k]) ==> NothingElse(earlier, start, before)
    requires |written| == WrittenRows(workbooks[k])
    requires created == if Completes(workbooks[k]) then written else []
    requires forall i :: 0 <= i < |written| ==> written[i] !in before
    requires forall i, j :: 0 <= i < j < |written| ==> written[i] != written[j]
    requires forall i :: 0 <= i < |written| ==>
               && workbooks[k].Sheet?
               && IsNameFor(written[i], PostsDir, Iso(now.date), workbooks[k].rows[i], i)
               && written[i] in after
               && after[written[i]] == PostContent(workbooks[k].rows[i], Stamp(now) + " +0900", dump)
    requires forall p :: p in before ==> p in after && after[p] == before[p]
    requires forall p :: p in after ==> p in before || p in written
    ensures |earlier + created| == TotalPosts(workbooks[..k + 1])
    ensures FreshPosts(earlier + created, start, after, now)
    ensures PostsInOrder(earlier + created, workbooks[..k + 1], after, now, dump)
    ensures OnlyPostsAdded(start, after, now)
    ensures NoWriteFailure(workbooks[..k + 1]) ==> NothingElse(earlier + created, start, after)
  {
    TotalPostsSnoc(workbooks, k);
    FreshBatch(start, before, after, earlier, created);
    if workbooks[k].Sheet? {
      NamesArePosts(written, workbooks[k].rows, now);
    }
    PostsAppend(earlier, created, now);
    PostsInOrderSnoc(earlier, created, workbooks, k, before, after, now, dump);
    assert workbooks[..k + 1][k] == workbooks[k];
    assert NoWriteFailure(workbooks[..k + 1]) ==> NoWriteFailure(workbooks[..k]) by {
      if NoWriteFailure(workbooks[..k + 1]) {
        forall j | 0 <= j < k
          ensures workbooks[..k][j].Unreadable? || Completes(workbooks[..k][j])
        {
          assert workbooks[..k + 1][j] == workbooks[..k][j];
        }
      }
    }
  }

  /** The posts of spreadsheet `k` follow those of the spreadsheets before it. */
  lemma PostsInOrderSnoc(earlier: seq<string>, batch: seq<string>, workbooks: seq<Workbook>, k: nat,
                         before: map<string, string>, after: map<string, string>, now: DateTime, dump: FrontMatter -> string)
    requires now.Valid() && k < |workbooks|
    requires |earlier| == TotalPosts(workbooks[..k])
    requires PostsInOrder(earlier, workbooks[..k], before, now, dump)
    requires |batch| == PostsMade(workbooks[k])
    requires forall i :: 0 <= i < |batch| ==>
               && workbooks[k].Sheet?
               && IsNameFor(batch[i], PostsDir, Iso(now.date), workbooks[k].rows[i], i)
               && batch[i] in after
               && after[batch[i]] == PostContent(workbooks[k].rows[i], Stamp(now) + " +0900", dump)
    requires forall p :: p in before ==> p in after && after[p] == before[p]
    ensures PostsInOrder(earlier + batch, workbooks[..k + 1], after, now, dump)
  {
    var ws := workbooks[..k + 1];
    forall j, i | 0 <= j < |ws| && 0 <= i < PostsMade(ws[j])
      ensures PostAt(earlier + batch, ws, j, i, after, now, dump)
    {
      if j < k {
        assert ws[j] == workbooks[..k][j];
        PostAtKept(earlier, batch, workbooks, k, j, i, before, after, now, dump);
      } else {
        PostAtNew(earlier, batch, workbooks, k, i, after, now, dump);
      }
    }
  }

  lemma PostAtKept(earlier: seq<string>, batch: seq<string>, workbooks: seq<Workbook>, k: nat, j: nat, i: nat,
                   before: map<string, string>, after: map<string, string>, now: DateTime, dump: FrontMatter -> string)
    requires now.Valid() && j < k < |workbooks| && i < PostsMade(workbooks[j])
    requires PostAt(earlier, workbooks[..k], j, i, before, now, dump)
    requires forall p :: p in before ==> p in after && after[p] == before[p]
    ensures PostAt(earlier + batch, workbooks[..k + 1], j, i, after, now, dump)
  {
    hide IsNameFor;
    hide PostContent;
    hide TotalPosts;
    assert workbooks[..k + 1][..j] == workbooks[..k][..j];
    assert workbooks[..k + 1][j] == workbooks[..k][j];
    var at := TotalPosts(workbooks[..k][..j]) + i;
    assert (earlier + batch)[at] == earlier[at];
  }

  lemma PostAtNew(earlier: seq<string>, batch: seq<string>, workbooks: seq<Workbook>, k: nat, i: nat,
                  after: map<string, string>, now: DateTime, dump: FrontMatter -> string)
    requires now.Valid() && k < |workbooks| && i < PostsMade(workbooks[k])
    requires |earlier| == TotalPosts(workbooks[..k])
    requires |batch| == PostsMade(workbooks[k])
    requires forall i :: 0 <= i < |batch| ==>
               && workbooks[k].Sheet?
               && IsNameFor(batch[i], PostsDir, Iso(now.date), workbooks[k].rows[i], i)
               && batch[i] in after
               && after[batch[i]] == PostContent(workbooks[k].rows[i], Stamp(now) + " +0900", dump)
    ensures PostAt(earlier + batch, workbooks[..k + 1], k, i, after, now, dump)
  {
    hide IsNameFor;
    hide PostContent;
    hide TotalPosts;
    assert workbooks[..k + 1][..k] == workbooks[..k];
    assert workbooks[..k + 1][k] == workbooks[k];
    assert (earlier + batch)[|earlier| + i] == batch[i];
  }

  /**
   * `process_excel_files` between its two notifications: no spreadsheet, no
   * post returned, or every returned post, in spreadsheet and row order.
   */
  method ConvertWorkbooks(fs: FileStore, workbooks: seq<Workbook>, now: DateTime, dump: FrontMatter -> string)
    returns (outcome: ConversionOutcome, createdFiles: seq<string>)
    requires now.Valid()
    modifies fs
    ensures outcome == Conversion(workbooks)
    ensures outcome.Created? ==> |createdFiles| == TotalPosts(workbooks)
    ensures !outcome.Created? ==> createdFiles == []
    ensures FreshPosts(createdFiles, old(fs.files), fs.files, now)
    ensures PostsInOrder(createdFiles, workbooks, fs.files, now, dump)
    ensures OnlyPostsAdded(old(fs.files), fs.files, now)
    ensures NoWriteFailure(workbooks) ==> NothingElse(createdFiles, old(fs.files), fs.files)
  {
    if |workbooks| == 0 {
      outcome, createdFiles := NoSpreadsheet, [];
    } else {
      var allCreatedFiles := ConvertAll(fs, workbooks, now, dump);
      if |allCreatedFiles| > 0 {
        outcome := Created(|allCreatedFiles|);
      } else {
        outcome := NothingCreated;
      }
      createdFiles := allCreatedFiles;
    }
  }

  /** The loop of `send_blog_update_notification` that collects the titles of the created posts. */
  method ReadPostTitles(paths: seq<string>) returns (titles: seq<string>)
    ensures titles == PostTitles(paths)
  {
    titles := [];
    for k := 0 to |paths|
      invariant titles == PostTitles(paths[..k])
    {
      PostTitlesSnoc(paths, k);
      var title := PostTitle(paths[k]);
      if title.Some? {
        titles := titles + [title.value];
      }
    }
    assert paths[..|paths|] == paths;
  }

  lemma PostsAppend(earlier: seq<string>, batch: seq<string>, now: DateTime)
    requires now.Valid()
    requires forall i :: 0 <= i < |earlier| ==> IsPostOf(earlier[i], now)
    requires forall i :: 0 <= i < |batch| ==> IsPostOf(batch[i], now)
    ensures forall i :: 0 <= i < |earlier + batch| ==> IsPostOf((earlier + batch)[i], now)
  {
    forall i | 0 <= i < |earlier + batch|
      ensures IsPostOf((earlier + batch)[i], now)
    {
      if i >= |earlier| {
        assert (earlier + batch)[i] == batch[i - |earlier|];
      }
    }
  }

  lemma SeqAssoc<T>(a: seq<T>, b: seq<T>, c: seq<T>)
    ensures a + (b + c) == a + b + c
  {
  }

  /** A batch of files new to `before` extends a list of distinct new files to a longer one. */
  lemma FreshBatch(start: map<string, string>, before: map<string, string>, after: map<string, string>,
                   earlier: seq<string>, batch: seq<string>)
    requires forall i :: 0 <= i < |earlier| ==> earlier[i] in before && earlier[i] !in start
    requires forall i, j :: 0 <= i < j < |earlier| ==> earlier[i] != earlier[j]
    requires forall p :: p in start ==> p in before && before[p] == start[p]
    requires forall i :: 0 <= i < |batch| ==> batch[i] !in before && batch[i] in after
    requires forall i, j :: 0 <= i < j < |batch| ==> batch[i] != batch[j]
    requires forall p :: p in before ==> p in after && after[p] == before[p]
    ensures forall i :: 0 <= i < |earlier + batch| ==> (earlier + batch)[i] in after && (earlier + batch)[i] !in start
    ensures forall i, j :: 0 <= i < j < |earlier + batch| ==> (earlier + batch)[i] != (earlier + batch)[j]
    ensures forall p :: p in start ==> p in after && after[p] == start[p]
  {
    var all := earlier + batch;
    forall i, j | 0 <= i < j < |all|
      ensures all[i] != all[j]
    {
      if j < |earlier| {
        assert all[i] == earlier[i] && all[j] == earlier[j];
      } else if i < |earlier| {
        assert all[i] == earlier[i] && all[j] == batch[j - |earlier|];
      } else {
        assert all[i] == batch[i - |earlier|] && all[j] == batch[j - |earlier|];
      }
    }
  }
}
