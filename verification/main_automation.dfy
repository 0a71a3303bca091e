/**
 * `scripts/main_automation.py`: the `BlogAutomation` run that converts the
 * spreadsheets to posts, uploads them with git and reports each milestone.
 *
 * The environment is made of inputs: the spreadsheets `glob` finds (in its
 * order, each readable or not), the working tree (a `FileStore`), what each
 * git command reports, `yaml.dump`, the server's verdict on mail and the
 * clock, read once per run. An automation records every notification it
 * issues (`notices`) and every git command it runs (`gitLog`); with a
 * notifier, each notification is also mailed, in the same order.
 */
module MainAutomation {
  import opened Options
  import opened Chars
  import opened Substrings
  import opened Decimal
  import opened Dates
  import opened ExcelToMarkdown
  import opened GmailNotifier
  import opened AutomationSteps

  /** A notification: a milestone with its status and details, or the blog-update mail. */
  datatype Notice =
    | Milestone(milestone: string, status: string, details: string)
    | BlogUpdate(postCount: nat, titles: seq<string>)

  /** The mail the notifier sends for a notice. */
  function EmailOf(sender: string, n: Notice, now: DateTime): Email
    requires now.Valid()
  {
    match n
    case Milestone(m, s, d) => Email(DefaultRecipients(sender), MilestoneSubject(m, s), MilestoneText(StatusEmoji(s), m, s, Stamp(now), d))
    case BlogUpdate(count, titles) => Email(DefaultRecipients(sender), UpdateSubject(count), UpdateText(count, Stamp(now), titles))
  }

  /** The mails for a list of notices, in order. */
  function Mailed(sender: string, notices: seq<Notice>, now: DateTime): (mails: seq<Email>)
    requires now.Valid()
    ensures |mails| == |notices|
  {
    if notices == [] then []
    else Mailed(sender, notices[..|notices| - 1], now) + [EmailOf(sender, notices[|notices| - 1], now)]
  }

  lemma MailedSnoc(sender: string, notices: seq<Notice>, n: Notice, now: DateTime)
    requires now.Valid()
    ensures Mailed(sender, notices + [n], now) == Mailed(sender, notices, now) + [EmailOf(sender, n, now)]
  {
    assert (notices + [n])[..|notices|] == notices;
  }

  function ProcessStart(): Notice {
    Milestone("데이터 처리", "시작", "Excel 파일을 Markdown으로 변환 중...")
  }

  /** The notice reporting how a conversion ended. */
  function ProcessReport(outcome: ConversionOutcome): Notice {
    match outcome
    case NoSpreadsheet => Milestone("데이터 처리", "실패", "Excel 파일을 찾을 수 없습니다.")
    case NothingCreated => Milestone("데이터 처리", "실패", "Markdown 파일 생성에 실패했습니다.")
    case Created(n) => Milestone("데이터 처리", "완료", "성공적으로 " + NatToString(n) + "개의 블로그 포스트를 생성했습니다.")
  }

  /** The notices `process_excel_files` issues, given the spreadsheets found. */
  function ProcessNotices(workbooks: seq<Workbook>): seq<Notice> {
    [ProcessStart(), ProcessReport(Conversion(workbooks))]
  }

  function GitStart(): Notice {
    Milestone("Git 업로드", "시작", "변경사항을 GitHub에 업로드 중...")
  }

  /** The notice reporting how an upload of `count` posts ended. */
  function GitReport(outcome: UploadOutcome, count: nat): Notice {
    match outcome
    case AddFailed(out) => Milestone("Git 업로드", "실패", "Git add 실패: " + out)
    case CommitFailed(out) => Milestone("Git 업로드", "실패", "Git commit 실패: " + out)
    case PushFailed(out) => Milestone("Git 업로드", "실패", "Git push 실패: " + out)
    case Uploaded => Milestone("Git 업로드", "완료", "성공적으로 " + NatToString(count) + "개의 포스트를 GitHub에 업로드했습니다.")
  }

  /** The notices `commit_and_push_changes` issues: the start, then the failing step's output or the success. */
  function GitNotices(git: string -> GitResult, count: nat, now: DateTime): seq<Notice>
    requires now.Valid()
  {
    [GitStart(), GitReport(Upload(git, count, now), count)]
  }

  function RunStart(): Notice {
    Milestone("자동화 시스템", "시작", "전체 자동화 프로세스를 시작합니다.")
  }

  function RunDone(count: nat): Notice {
    Milestone("자동화 시스템", "완료", CompletionText(count))
  }

  /** `details.strip()` on the completion template leaves exactly the report. */
  lemma CompletionStripped(count: nat)
    ensures Strip("\n" + CompletionText(count) + TemplateIndent) == CompletionText(count)
  {
    var text := CompletionText(count);
    assert text[0] == CompletionHead[0];
    assert text[|text| - 1] == CompletionTail[|CompletionTail| - 1];
    StripFramed("\n", text, TemplateIndent);
  }

  /**
   * The notices of `run_full_automation`: its start, the conversion's, then,
   * when posts were made, the upload's, and after a successful upload the
   * blog-update mail (with a notifier) and the completion report.
   */
  function RunNotices(workbooks: seq<Workbook>, git: string -> GitResult, now: DateTime,
                      mailsUpdate: bool, titles: seq<string>): seq<Notice>
    requires now.Valid()
  {
    var n := TotalPosts(workbooks);
    [RunStart()] + ProcessNotices(workbooks) + (if n == 0 then [] else PublishNotices(git, n, now, mailsUpdate, titles))
  }

  /** The notices after a successful conversion of `n` posts: the upload's, then the update mail and the report. */
  function PublishNotices(git: string -> GitResult, n: nat, now: DateTime, mailsUpdate: bool, titles: seq<string>): seq<Notice>
    requires now.Valid()
  {
    GitNotices(git, n, now)
    + if !GitSucceeds(git, n, now) then [] else (if mailsUpdate then [BlogUpdate(n, titles)] else []) + [RunDone(n)]
  }

  /**
   * A run ends with the completion report exactly when it succeeded: every
   * failure ends with the conversion's or the upload's own report.
   */
  lemma RunReportsOutcome(workbooks: seq<Workbook>, git: string -> GitResult, now: DateTime,
                          mailsUpdate: bool, titles: seq<string>)
    requires now.Valid()
    ensures var notices := RunNotices(workbooks, git, now, mailsUpdate, titles);
      notices[0] == RunStart() && notices[1] == ProcessStart()
      && (notices[|notices| - 1] == RunDone(TotalPosts(workbooks))
          <==> TotalPosts(workbooks) > 0 && GitSucceeds(git, TotalPosts(workbooks), now))
  {
    var process, git, run := "데이터 처리", "Git 업로드", "자동화 시스템";
    assert process[0] != run[0] && git[0] != run[0];
  }


  class BlogAutomation {
    /** The mail notifier, present when the configuration names a sender and a password. */
    const notifier: Notifier?
    /** The time of the run. */
    const now: DateTime
    /** Every notification issued, in order (mailed, or printed when there is no notifier). */
    var notices: seq<Notice>
    /** Every git command run, in order. */
    var gitLog: seq<string>

    /** With a notifier, its outbox holds exactly the mails of the notices, in order. */
    predicate Valid()
      reads this, notifier
    {
      && now.Valid()
      && (notifier != null ==> notifier.outbox == Mailed(notifier.senderEmail, notices, now))
    }

    /** `__init__`: a notifier exactly when both `sender_email` and `sender_password` are set and non-empty. */
    constructor(senderEmail: Option<string>, senderPassword: Option<string>, smtpAccepts: bool, now: DateTime)
      requires now.Valid()
      ensures Valid()
      ensures notices == [] && gitLog == [] && this.now == now
      ensures notifier != null <==> senderEmail.GetOr("") != "" && senderPassword.GetOr("") != ""
      ensures notifier != null ==> fresh(notifier) && notifier.senderEmail == senderEmail.value
    {
      if senderEmail.GetOr("") != "" && senderPassword.GetOr("") != "" {
        notifier := new Notifier(senderEmail.value, senderPassword.value, smtpAccepts);
      } else {
        notifier := null;
      }
      this.now := now;
      notices := [];
      gitLog := [];
    }

    /** `send_notification`: mailed through the notifier, or printed, which always succeeds. */
    method SendNotification(milestone: string, status: string, details: string) returns (ok: bool)
      requires Valid()
      modifies this, notifier
      ensures Valid()
      ensures notices == old(notices) + [Milestone(milestone, status, details)]
      ensures gitLog == old(gitLog)
      ensures ok == (notifier == null || notifier.smtpAccepts)
    {
      var notice := Milestone(milestone, status, details);
      if notifier != null {
        MailedSnoc(notifier.senderEmail, notices, notice, now);
        ok := notifier.SendMilestoneNotification(milestone, status, details, None, now);
      } else {
        ok := true;
      }
      notices := notices + [notice];
    }

    /**
     * `process_excel_files`: every spreadsheet converted in order; success
     * exactly when some post was made, and then all of them are returned,
     * each a post of this run that did not exist before, none twice.
     */
    method ProcessExcelFiles(fs: FileStore, workbooks: seq<Workbook>, dump: FrontMatter -> string)
      returns (success: bool, createdFiles: seq<string>)
      requires Valid()
      modifies this, notifier, fs
      ensures Valid()
      ensures success <==> TotalPosts(workbooks) > 0
      ensures success ==> |createdFiles| == TotalPosts(workbooks)
      ensures !success ==> createdFiles == []
      ensures FreshPosts(createdFiles, old(fs.files), fs.files, now)
      ensures PostsInOrder(createdFiles, workbooks, fs.files, now, dump)
      ensures OnlyPostsAdded(old(fs.files), fs.files, now)
      ensures NoWriteFailure(workbooks) ==> NothingElse(createdFiles, old(fs.files), fs.files)
      ensures notices == old(notices) + ProcessNotices(workbooks)
      ensures gitLog == old(gitLog)
    {
      hide Mailed;
      hide EmailOf;
      var start := ProcessStart();
      var _ := SendNotification(start.milestone, start.status, start.details);
      var outcome;
      outcome, createdFiles := ConvertWorkbooks(fs, workbooks, now, dump);
      success := outcome.Created?;
      var report := ProcessReport(outcome);
      var _ := SendNotification(report.milestone, report.status, report.details);
    }

    /**
     * `commit_and_push_changes`: add, commit, push, each only after the
     * previous one passed; a commit that found nothing to commit does not
     * stop the upload.
     */
    method CommitAndPushChanges(createdFiles: seq<string>, git: string -> GitResult) returns (ok: bool)
      requires Valid()
      modifies this, notifier
      ensures Valid()
      ensures ok == GitSucceeds(git, |createdFiles|, now)
      ensures gitLog == old(gitLog) + GitRun(git, |createdFiles|, now)
      ensures notices == old(notices) + GitNotices(git, |createdFiles|, now)
    {
      hide Mailed;
      hide EmailOf;
      var start := GitStart();
      var _ := SendNotification(start.milestone, start.status, start.details);
      var outcome, commands := RunGitSteps(git, |createdFiles|, now);
      gitLog := gitLog + commands;
      ok := outcome.Uploaded?;
      var report := GitReport(outcome, |createdFiles|);
      var _ := SendNotification(report.milestone, report.status, report.details);
    }

    /**
     * `send_blog_update_notification`: with a notifier and at least one
     * post, one update mail listing the titles read back from the paths.
     */
    method SendBlogUpdateNotification(createdFiles: seq<string>)
      requires Valid()
      modifies this, notifier
      ensures Valid()
      ensures notifier != null && createdFiles != [] ==>
                notices == old(notices) + [BlogUpdate(|createdFiles|, PostTitles(createdFiles))]
      ensures !(notifier != null && createdFiles != []) ==> notices == old(notices)
      ensures gitLog == old(gitLog)
    {
      if notifier != null && createdFiles != [] {
        var postTitles := ReadPostTitles(createdFiles);
        var notice := BlogUpdate(|createdFiles|, postTitles);
        MailedSnoc(notifier.senderEmail, notices, notice, now);
        var _ := notifier.SendBlogUpdateNotification(|createdFiles|, Some(postTitles), now);
        notices := notices + [notice];
      }
    }

    /**
     * `run_full_automation`: the run succeeds exactly when some post was
     * made and the upload went through; git runs only when there are posts.
     * `createdFiles` names the posts the conversion made.
     */
    method RunFullAutomation(fs: FileStore, workbooks: seq<Workbook>, git: string -> GitResult,
                             dump: FrontMatter -> string)
      returns (ok: bool, ghost createdFiles: seq<string>)
      requires Valid()
      modifies this, notifier, fs
      ensures Valid()
      ensures ok <==> TotalPosts(workbooks) > 0 && GitSucceeds(git, TotalPosts(workbooks), now)
      ensures gitLog == old(gitLog) + (if TotalPosts(workbooks) > 0 then GitRun(git, TotalPosts(workbooks), now) else [])
      ensures |createdFiles| == TotalPosts(workbooks)
      ensures FreshPosts(createdFiles, old(fs.files), fs.files, now)
      ensures PostsInOrder(createdFiles, workbooks, fs.files, now, dump)
      ensures OnlyPostsAdded(old(fs.files), fs.files, now)
      ensures NoWriteFailure(workbooks) ==> NothingElse(createdFiles, old(fs.files), fs.files)
      ensures notices == old(notices) + RunNotices(workbooks, git, now, notifier != null, PostTitles(createdFiles))
    {
      hide Mailed;
      hide EmailOf;
      var start := RunStart();
      var _ := SendNotification(start.milestone, start.status, start.details);
      var success, files := ProcessExcelFiles(fs, workbooks, dump);
      createdFiles := files;
      ghost var opening := [start] + ProcessNotices(workbooks);
      SeqAssoc(old(notices), [start], ProcessNotices(workbooks));
      if !success {
        assert RunNotices(workbooks, git, now, notifier != null, PostTitles(createdFiles)) == opening + [];
        assert opening + [] == opening;
        return false, createdFiles;
      }
      if files == [] {
        // `process_excel_files` reports success only together with a non-empty list.
        assert false;
      }
      ok := Publish(files, git);
      ghost var rest := PublishNotices(git, |files|, now, notifier != null && files != [], PostTitles(files));
      assert RunNotices(workbooks, git, now, notifier != null, PostTitles(createdFiles)) == opening + rest;
      SeqAssoc(old(notices), opening, rest);
    }

    /** The steps of `run_full_automation` after a conversion that made `files`: upload, update mail, report. */
    method Publish(files: seq<string>, git: string -> GitResult) returns (ok: bool)
      requires Valid()
      modifies this, notifier
      ensures Valid()
      ensures ok == GitSucceeds(git, |files|, now)
      ensures gitLog == old(gitLog) + GitRun(git, |files|, now)
      ensures notices == old(notices) + PublishNotices(git, |files|, now, notifier != null && files != [], PostTitles(files))
    {
      hide Mailed;
      hide EmailOf;
      ok := CommitAndPushChanges(files, git);
      if !ok {
        return;
      }
      ghost var uploaded := notices;
      SendBlogUpdateNotification(files);
      ghost var update := if notifier != null && files != [] then [BlogUpdate(|files|, PostTitles(files))] else [];
      assert notices == uploaded + update;
      var details := "\n" + CompletionText(|files|) + TemplateIndent;
      CompletionStripped(|files|);
      var _ := SendNotification("자동화 시스템", "완료", Strip(details));
      ghost var upload := GitNotices(git, |files|, now);
      assert notices == uploaded + update + [RunDone(|files|)];
      assert PublishNotices(git, |files|, now, notifier != null && files != [], PostTitles(files))
          == upload + (update + [RunDone(|files|)]);
      SeqAssoc(old(notices), upload, update);
      SeqAssoc(old(notices), upload + update, [RunDone(|files|)]);
      SeqAssoc(upload, update, [RunDone(|files|)]);
    }
  }

}
