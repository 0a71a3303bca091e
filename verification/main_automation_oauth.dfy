/**
 * `scripts/main_automation_oauth.py`: the `BlogAutomationOAuth` run, the
 * same conversion and upload as `BlogAutomation` with each notification a
 * title and a description sent through the Gmail API.
 *
 * The OAuth notifier is an input: whether the configuration names a client
 * (so that a notifier is made), whether its authentication gave it a
 * service, and what the service answers when asked to send. Without a
 * service a notification is printed and counts as sent.
 */
module MainAutomationOAuth {
  import opened Options
  import opened Substrings
  import opened Decimal
  import opened Dates
  import opened ExcelToMarkdown
  import opened GmailNotifier
  import opened AutomationSteps

  /** The client id `load_oauth_config` falls back on when there is no configuration file. */
  const DefaultClientId: string := "827559610222-ijmpggdvrgj736almhbda576l5l42l77.apps.googleusercontent.com"

  /** A notification: its title and description. */
  datatype Info = Info(title: string, description: string)

  function ProcessStart(): Info {
    Info("데이터 처리 시작", "Excel 파일을 Markdown으로 변환 중...")
  }

  /** The notification reporting how a conversion ended. */
  function ProcessReport(outcome: ConversionOutcome): Info {
    match outcome
    case NoSpreadsheet => Info("데이터 처리 실패", "Excel 파일을 찾을 수 없습니다.")
    case NothingCreated => Info("데이터 처리 실패", "Markdown 파일 생성에 실패했습니다.")
    case Created(n) => Info("데이터 처리 완료", "성공적으로 " + NatToString(n) + "개의 블로그 포스트를 생성했습니다.")
  }

  function GitStart(): Info {
    Info("Git 업로드 시작", "변경사항을 GitHub에 업로드 중...")
  }

  /** The notification reporting how an upload of `count` posts ended. */
  function GitReport(outcome: UploadOutcome, count: nat): Info {
    match outcome
    case AddFailed(out) => Info("Git 업로드 실패", "Git add 실패: " + out)
    case CommitFailed(out) => Info("Git 업로드 실패", "Git commit 실패: " + out)
    case PushFailed(out) => Info("Git 업로드 실패", "Git push 실패: " + out)
    case Uploaded => Info("Git 업로드 완료", "성공적으로 " + NatToString(count) + "개의 포스트를 GitHub에 업로드했습니다.")
  }

  function RunStart(): Info {
    Info("자동화 시스템 시작", "전체 자동화 프로세스를 시작합니다.")
  }

  function RunDone(count: nat): Info {
    Info("자동화 시스템 완료", CompletionText(count))
  }

  const UpdateLead: string := "새로 추가된 포스트: "
  const Ellipsis: string := "..."
  /** How many titles the update notification names. */
  const Shown: nat := 3

  /** The description of the update notification: the first three titles, then `...` if there are more. */
  function UpdateDescription(titles: seq<string>): string {
    UpdateLead + Join(titles[..if |titles| < Shown then |titles| else Shown], ", ")
    + (if |titles| > Shown then Ellipsis else "")
  }

  function UpdateInfo(count: nat, titles: seq<string>): Info {
    Info("블로그 업데이트 - " + NatToString(count) + "개 새 포스트", UpdateDescription(titles))
  }

  /**
   * The update notification names each of the first three titles; with
   * three or fewer it is all of them and nothing else, with more it ends in
   * an ellipsis.
   */
  lemma UpdateDescriptionNames(titles: seq<string>)
    ensures forall i :: 0 <= i < |titles| && i < Shown ==> Contains(UpdateDescription(titles), titles[i])
    ensures |titles| <= Shown ==> UpdateDescription(titles) == UpdateLead + Join(titles, ", ")
    ensures |titles| > Shown ==> UpdateDescription(titles)[|UpdateDescription(titles)| - |Ellipsis|..] == Ellipsis
  {
    var shown := titles[..if |titles| < Shown then |titles| else Shown];
    var tail := if |titles| > Shown then Ellipsis else "";
    forall i | 0 <= i < |titles| && i < Shown
      ensures Contains(UpdateDescription(titles), titles[i])
    {
      assert shown[i] == titles[i];
      JoinContains(shown, ", ", i);
      ContainsPrepend(UpdateLead, Join(shown, ", "), titles[i]);
      ContainsExtend(UpdateLead + Join(shown, ", "), titles[i], tail);
    }
    if |titles| <= Shown {
      assert shown == titles;
      assert UpdateDescription(titles) == UpdateLead + Join(titles, ", ") + "";
    }
  }

  /**
   * The notifications of a run that got past the authentication check: its
   * start, the conversion's, then, when posts were made, the upload's, and
   * after a successful upload the update and the completion report.
   */
  function RunInfos(workbooks: seq<Workbook>, git: string -> GitResult, now: DateTime, titles: seq<string>): seq<Info>
    requires now.Valid()
  {
    var n := TotalPosts(workbooks);
    [RunStart()] + [ProcessStart(), ProcessReport(Conversion(workbooks))]
    + (if n == 0 then [] else PublishInfos(git, n, now, titles))
  }

  /** The notifications after a conversion that made `n > 0` posts. */
  function PublishInfos(git: string -> GitResult, n: nat, now: DateTime, titles: seq<string>): seq<Info>
    requires now.Valid()
  {
    [GitStart(), GitReport(Upload(git, n, now), n)]
    + if Upload(git, n, now).Uploaded? then [UpdateInfo(n, titles), RunDone(n)] else []
  }

  /** A run ends with the completion report exactly when the upload succeeded. */
  lemma RunReportsOutcome(workbooks: seq<Workbook>, git: string -> GitResult, now: DateTime, titles: seq<string>)
    requires now.Valid()
    ensures var infos := RunInfos(workbooks, git, now, titles);
      infos[0] == RunStart()
      && (infos[|infos| - 1] == RunDone(TotalPosts(workbooks))
          <==> TotalPosts(workbooks) > 0 && GitSucceeds(git, TotalPosts(workbooks), now))
  {
    assert "데이터 처리 완료"[0] != "자동화 시스템 완료"[0];
    assert "데이터 처리 실패"[0] != "자동화 시스템 완료"[0];
    assert "Git 업로드 완료"[0] != "자동화 시스템 완료"[0];
    assert "Git 업로드 실패"[0] != "자동화 시스템 완료"[0];
  }

  class BlogAutomationOAuth {
    /** Whether a notifier was made: the configuration names a client. */
    const hasNotifier: bool
    /** Whether the notifier's authentication gave it a Gmail service. */
    const serviceReady: bool
    /** What the Gmail service answers when asked to send. */
    const sendOk: bool
    /** The time of the run. */
    const now: DateTime
    /** Every notification issued, in order. */
    var notices: seq<Info>
    /** The notifications that went through the Gmail service, in order. */
    var mailed: seq<Info>
    /** Every git command run, in order. */
    var gitLog: seq<string>

    /** Whether notifications go through Gmail rather than to the console. */
    predicate Mails()
      reads this
    {
      hasNotifier && serviceReady
    }

    predicate Valid()
      reads this
    {
      now.Valid() && mailed == (if Mails() then notices else [])
    }

    /**
     * `__init__`: a notifier exactly when the configuration's `client_id`
     * is set and non-empty; without a configuration file the built-in one,
     * which names a client, is used.
     */
    constructor(config: Option<map<string, string>>, serviceReady: bool, sendOk: bool, now: DateTime)
      requires now.Valid()
      ensures Valid()
      ensures notices == [] && gitLog == [] && this.now == now
      ensures this.serviceReady == serviceReady && this.sendOk == sendOk
      ensures config.None? ==> hasNotifier
      ensures config.Some? ==> (hasNotifier <==> "client_id" in config.value && config.value["client_id"] != "")
    {
      var clientId := match config
        case None => DefaultClientId
        case Some(m) => if "client_id" in m then m["client_id"] else "";
      hasNotifier := clientId != "";
      this.serviceReady := serviceReady;
      this.sendOk := sendOk;
      this.now := now;
      notices := [];
      mailed := [];
      gitLog := [];
    }

    /** `send_notification`: through the Gmail service when there is one, otherwise printed, which always succeeds. */
    method SendNotification(info: Info) returns (ok: bool)
      requires Valid()
      modifies this
      ensures Valid()
      ensures notices == old(notices) + [info]
      ensures gitLog == old(gitLog)
      ensures ok == (!Mails() || sendOk)
    {
      notices := notices + [info];
      if hasNotifier && serviceReady {
        mailed := mailed + [info];
        ok := sendOk;
      } else {
        ok := true;
      }
    }

    /** `process_excel_files`: as in `BlogAutomation`, with this script's notifications. */
    method ProcessExcelFiles(fs: FileStore, workbooks: seq<Workbook>, dump: FrontMatter -> string)
      returns (success: bool, createdFiles: seq<string>)
      requires Valid()
      modifies this, fs
      ensures Valid()
      ensures success <==> TotalPosts(workbooks) > 0
      ensures success ==> |createdFiles| == TotalPosts(workbooks)
      ensures !success ==> createdFiles == []
      ensures FreshPosts(createdFiles, old(fs.files), fs.files, now)
      ensures PostsInOrder(createdFiles, workbooks, fs.files, now, dump)
      ensures OnlyPostsAdded(old(fs.files), fs.files, now)
      ensures NoWriteFailure(workbooks) ==> NothingElse(createdFiles, old(fs.files), fs.files)
      ensures notices == old(notices) + [ProcessStart(), ProcessReport(Conversion(workbooks))]
      ensures gitLog == old(gitLog)
    {
      var _ := SendNotification(ProcessStart());
      var outcome;
      outcome, createdFiles := ConvertWorkbooks(fs, workbooks, now, dump);
      success := outcome.Created?;
      var _ := SendNotification(ProcessReport(outcome));
    }

    /** `commit_and_push_changes`: as in `BlogAutomation`, with this script's notifications. */
    method CommitAndPushChanges(createdFiles: seq<string>, git: string -> GitResult) returns (ok: bool)
      requires Valid()
      modifies this
      ensures Valid()
      ensures ok == GitSucceeds(git, |createdFiles|, now)
      ensures gitLog == old(gitLog) + GitRun(git, |createdFiles|, now)
      ensures notices == old(notices) + [GitStart(), GitReport(Upload(git, |createdFiles|, now), |createdFiles|)]
    {
      var _ := SendNotification(GitStart());
      var outcome, commands := RunGitSteps(git, |createdFiles|, now);
      gitLog := gitLog + commands;
      ok := outcome.Uploaded?;
      var _ := SendNotification(GitReport(outcome, |createdFiles|));
    }

    /**
     * `send_blog_update_notification`: with a Gmail service and at least
     * one post, one notification naming the first titles read back from the
     * paths.
     */
    method SendBlogUpdateNotification(createdFiles: seq<string>)
      requires Valid()
      modifies this
      ensures Valid()
      ensures Mails() && createdFiles != [] ==>
                notices == old(notices) + [UpdateInfo(|createdFiles|, PostTitles(createdFiles))]
      ensures !(Mails() && createdFiles != []) ==> notices == old(notices)
      ensures gitLog == old(gitLog)
    {
      if hasNotifier && serviceReady && createdFiles != [] {
        var postTitles := ReadPostTitles(createdFiles);
        var _ := SendNotification(UpdateInfo(|createdFiles|, postTitles));
      }
    }

    /**
     * `run_full_automation`: without a Gmail service the run stops right
     * after its first notification and fails; otherwise it succeeds exactly
     * when some post was made and the upload went through.
     */
    method RunFullAutomation(fs: FileStore, workbooks: seq<Workbook>, git: string -> GitResult,
                             dump: FrontMatter -> string)
      returns (ok: bool, ghost createdFiles: seq<string>)
      requires Valid()
      modifies this, fs
      ensures Valid()
      ensures ok <==> Mails() && TotalPosts(workbooks) > 0 && GitSucceeds(git, TotalPosts(workbooks), now)
      ensures !Mails() ==> notices == old(notices) + [RunStart()] && gitLog == old(gitLog) && fs.files == old(fs.files)
      ensures Mails() ==> |createdFiles| == TotalPosts(workbooks)
      ensures Mails() ==> gitLog == old(gitLog) + (if TotalPosts(workbooks) > 0 then GitRun(git, TotalPosts(workbooks), now) else [])
      ensures FreshPosts(createdFiles, old(fs.files), fs.files, now)
      ensures Mails() ==> PostsInOrder(createdFiles, workbooks, fs.files, now, dump)
      ensures OnlyPostsAdded(old(fs.files), fs.files, now)
      ensures NoWriteFailure(workbooks) ==> NothingElse(createdFiles, old(fs.files), fs.files)
      ensures Mails() ==> notices == old(notices) + RunInfos(workbooks, git, now, PostTitles(createdFiles))
    {
      var _ := SendNotification(RunStart());
      if !(hasNotifier && serviceReady) {
        return false, [];
      }
      var success, files := ProcessExcelFiles(fs, workbooks, dump);
      createdFiles := files;
      ghost var opening := [RunStart()] + [ProcessStart(), ProcessReport(Conversion(workbooks))];
      SeqAssoc(old(notices), [RunStart()], [ProcessStart(), ProcessReport(Conversion(workbooks))]);
      if !success {
        assert RunInfos(workbooks, git, now, PostTitles(createdFiles)) == opening + [];
        assert opening + [] == opening;
        return false, createdFiles;
      }
      if files == [] {
        // `process_excel_files` reports success only together with a non-empty list.
        assert false;
      }
      ok := Publish(files, git);
      ghost var rest := PublishInfos(git, |files|, now, PostTitles(files));
      assert RunInfos(workbooks, git, now, PostTitles(createdFiles)) == opening + rest;
      SeqAssoc(old(notices), opening, rest);
    }

    /** The steps of `run_full_automation` after a conversion that made `files`: upload, update, report. */
    method Publish(files: seq<string>, git: string -> GitResult) returns (ok: bool)
      requires Valid() && Mails() && files != []
      modifies this
      ensures Valid()
      ensures ok == GitSucceeds(git, |files|, now)
      ensures gitLog == old(gitLog) + GitRun(git, |files|, now)
      ensures notices == old(notices) + PublishInfos(git, |files|, now, PostTitles(files))
    {
      hide PostTitles;
      ok := CommitAndPushChanges(files, git);
      if !ok {
        assert [GitStart(), GitReport(Upload(git, |files|, now), |files|)] + [] == PublishInfos(git, |files|, now, PostTitles(files));
        return;
      }
      ghost var uploaded := notices;
      SendBlogUpdateNotification(files);
      var _ := SendNotification(RunDone(|files|));
      ghost var upload := [GitStart(), GitReport(Upload(git, |files|, now), |files|)];
      ghost var update, done := [UpdateInfo(|files|, PostTitles(files))], [RunDone(|files|)];
      SeqAssoc(uploaded, update, done);
      assert update + done == [UpdateInfo(|files|, PostTitles(files)), RunDone(|files|)];
      SeqAssoc(old(notices), upload, update + done);
    }
  }
}
