/**
 * `scripts/gmail_notifier.py`: the milestone and blog-update e-mails of the
 * automation. The SMTP session of `send_email` is outside the model: a
 * notifier hands each message to its outbox and the server's verdict is
 * the input `smtpAccepts`. The clock is an input (`now`).
 */
module GmailNotifier {
  import opened Options
  import opened Chars
  import opened Substrings
  import opened Decimal
  import opened Dates

  /** The address every notification goes to besides the sender. */
  const SecondRecipient: string := "iysin0102@gmail.com"

  /** `[self.sender_email, "iysin0102@gmail.com"]`. */
  function DefaultRecipients(sender: string): seq<string> {
    [sender, SecondRecipient]
  }

  datatype Email = Email(recipients: seq<string>, subject: string, body: string)

  /** The `status_emoji` table of `create_email_body`. */
  const StatusEmojiTable: map<string, string> :=
    map["시작" := "🚀", "진행중" := "⚡", "완료" := "✅", "실패" := "❌", "대기" := "⏳"]

  const DefaultEmoji: string := "📝"

  /** `status_emoji.get(status, "📝")`, one comparison per table entry. */
  function StatusEmoji(status: string): (emoji: string)
    ensures |emoji| == 1 && !IsSpace(emoji[0])
  {
    if status == "시작" then "🚀"
    else if status == "진행중" then "⚡"
    else if status == "완료" then "✅"
    else if status == "실패" then "❌"
    else if status == "대기" then "⏳"
    else DefaultEmoji
  }

  /** The default is used exactly for statuses outside the table; the others get the table's emoji. */
  lemma StatusEmojiLookup(status: string)
    ensures status in StatusEmojiTable ==> StatusEmoji(status) == StatusEmojiTable[status]
    ensures StatusEmoji(status) == DefaultEmoji <==> status !in StatusEmojiTable
  {
  }

  /** `f"🚀 AI News Blog - {milestone_name} {status}"`. */
  function MilestoneSubject(milestone: string, status: string): string {
    "🚀 AI News Blog - " + milestone + " " + status
  }

  /** The milestone text between the line break that opens the template and the indentation that closes it. */
  function MilestoneText(emoji: string, milestone: string, status: string, stamp: string, details: string): string {
    emoji + MilestoneTitle + milestone + StatusLabel + status + TimeLabel + stamp + "\n\n" + details + MilestoneFooter
  }

  const MilestoneTitle: string := " AI News Blog 자동화 시스템 알림\n\n📋 마일스톤: "
  const StatusLabel: string := "\n📊 상태: "
  const TimeLabel: string := "\n🕐 시간: "
  const MilestoneFooter: string :=
    "\n\n---\n🔗 GitHub 저장소: https://github.com/winterkim-bot/sans\n🌐 블로그 주소: https://winterkim-bot.github.io/sans\n\n이 메시지는 자동으로 발송되었습니다."

  /** The indentation before the closing quotes of the body templates. */
  const TemplateIndent: string := "\n        "

  /**
   * `create_email_body`: `strip()` removes only the template's frame, so the
   * body starts with the status emoji, and the details come through whole,
   * even when they begin or end with whitespace.
   */
  function CreateEmailBody(milestone: string, status: string, details: string, now: DateTime): (body: string)
    requires now.Valid()
    ensures body == MilestoneText(StatusEmoji(status), milestone, status, Stamp(now), details)
  {
    var text := MilestoneText(StatusEmoji(status), milestone, status, Stamp(now), details);
    StripFramed("\n", text, TemplateIndent);
    Strip("\n" + text + TemplateIndent)
  }

  /** The milestone body names the milestone, the status and the details, and opens with the status emoji. */
  lemma EmailBodyMentions(milestone: string, status: string, details: string, now: DateTime)
    requires now.Valid()
    ensures var body := CreateEmailBody(milestone, status, details, now);
      && IsStripped(body)
      && body[0] == StatusEmoji(status)[0]
      && Contains(body, milestone) && Contains(body, status) && Contains(body, details)
  {
    var emoji, stamp := StatusEmoji(status), Stamp(now);
    var toMilestone := emoji + MilestoneTitle + milestone;
    ContainsSuffix(emoji + MilestoneTitle, milestone);
    ContainsExtend(toMilestone, milestone, StatusLabel);
    ContainsExtend(toMilestone + StatusLabel, milestone, status);
    ContainsSuffix(toMilestone + StatusLabel, status);
    var toStatus := toMilestone + StatusLabel + status;
    ContainsExtend(toStatus, milestone, TimeLabel);
    ContainsExtend(toStatus, status, TimeLabel);
    ContainsExtend(toStatus + TimeLabel, milestone, stamp);
    ContainsExtend(toStatus + TimeLabel, status, stamp);
    ContainsExtend(toStatus + TimeLabel + stamp, milestone, "\n\n");
    ContainsExtend(toStatus + TimeLabel + stamp, status, "\n\n");
    var beforeDetails := toStatus + TimeLabel + stamp + "\n\n";
    ContainsExtend(beforeDetails, milestone, details);
    ContainsExtend(beforeDetails, status, details);
    ContainsSuffix(beforeDetails, details);
    ContainsExtend(beforeDetails + details, milestone, MilestoneFooter);
    ContainsExtend(beforeDetails + details, status, MilestoneFooter);
    ContainsExtend(beforeDetails + details, details, MilestoneFooter);
  }

  /** The subject of a blog update: `f"📰 AI News Blog 업데이트 - {post_count}개 새 포스트"`. */
  function UpdateSubject(postCount: nat): string {
    "📰 AI News Blog 업데이트 - " + NatToString(postCount) + "개 새 포스트"
  }

  /** How many titles a blog-update body lists. */
  const MaxListed: nat := 10

  /** `f"{i}. {title}\n"`. */
  function NumberedLine(n: nat, title: string): string {
    NatToString(n) + ". " + title + "\n"
  }

  /** The lines `enumerate(titles, 1)` writes, in order. */
  function NumberedLines(titles: seq<string>): (lines: seq<string>)
    ensures |lines| == |titles|
  {
    if titles == [] then []
    else NumberedLines(titles[..|titles| - 1]) + [NumberedLine(|titles|, titles[|titles| - 1])]
  }

  /** Line `i` of the listing is title `i`, numbered from 1. */
  lemma {:induction false} NumberedLinesAt(titles: seq<string>, i: nat)
    requires i < |titles|
    ensures NumberedLines(titles)[i] == NumberedLine(i + 1, titles[i])
    decreases |titles|
  {
    var n := |titles| - 1;
    if i < n {
      NumberedLinesAt(titles[..n], i);
    }
  }

  /** `f"... 외 {len(post_titles) - 10}개\n"` when more than ten titles were given, nothing otherwise. */
  function Overflow(count: nat): (line: string)
    ensures line != [] <==> count > MaxListed
  {
    if count > MaxListed then "... 외 " + NatToString(count - MaxListed) + "개\n" else ""
  }

  function Min(a: nat, b: nat): nat {
    if a <= b then a else b
  }

  /** The listing of a blog update: the first ten titles, numbered, then the overflow line. */
  function Listing(titles: seq<string>): string {
    Concat(NumberedLines(titles[..Min(|titles|, MaxListed)])) + Overflow(|titles|)
  }

  /**
   * The listing names the first `min(n, 10)` titles, each on its own
   * numbered line in input order, and says how many were left out exactly
   * when there were more than ten.
   */
  lemma ListingShape(titles: seq<string>)
    ensures var shown := NumberedLines(titles[..Min(|titles|, MaxListed)]);
      && |shown| <= MaxListed
      && (|titles| <= MaxListed ==> |shown| == |titles|)
      && (forall i :: 0 <= i < |shown| ==> shown[i] == NumberedLine(i + 1, titles[i]))
      && Listing(titles) == Concat(shown) + Overflow(|titles|)
  {
    var k := Min(|titles|, MaxListed);
    forall i | 0 <= i < k
      ensures NumberedLines(titles[..k])[i] == NumberedLine(i + 1, titles[i])
    {
      NumberedLinesAt(titles[..k], i);
    }
  }

  /** The blog-update text between the template's opening line break and closing indentation. */
  function UpdateText(postCount: nat, stamp: string, titles: seq<string>): string {
    UpdateHead(postCount, stamp) + Listing(titles) + UpdateFooter
  }

  function UpdateHead(postCount: nat, stamp: string): string {
    UpdateTitle + NatToString(postCount) + CountUnit + stamp + ListHeading
  }

  const UpdateTitle: string := "📰 AI News Blog가 업데이트되었습니다!\n\n📊 새로 추가된 포스트: "
  const CountUnit: string := "개\n🕐 업데이트 시간: "
  const ListHeading: string := "\n\n📝 새 포스트 목록:\n"

  const UpdateFooter: string :=
    "\n🌐 블로그 확인하기: https://winterkim-bot.github.io/sans\n\n---\n이 메시지는 자동으로 발송되었습니다."

  lemma ListingSnoc(titles: seq<string>, i: nat)
    requires i < |titles|
    ensures Concat(NumberedLines(titles[..i + 1])) == Concat(NumberedLines(titles[..i])) + NumberedLine(i + 1, titles[i])
  {
    assert titles[..i + 1][..i] == titles[..i];
    var lines := NumberedLines(titles[..i + 1]);
    assert lines[..|lines| - 1] == NumberedLines(titles[..i]);
  }

  /** `strip()` of the assembled update body removes only the template's frame. */
  lemma UpdateBodyStrips(postCount: nat, stamp: string, titles: seq<string>)
    ensures var shown := Concat(NumberedLines(titles[..Min(|titles|, MaxListed)]));
      Strip("\n" + UpdateHead(postCount, stamp) + shown + Overflow(|titles|) + UpdateFooter + TemplateIndent)
      == UpdateText(postCount, stamp, titles)
  {
    var head := UpdateHead(postCount, stamp);
    var shown := Concat(NumberedLines(titles[..Min(|titles|, MaxListed)]));
    AppendAssoc("\n" + head, shown, Overflow(|titles|));
    AppendAssoc("\n", head, Listing(titles));
    AppendAssoc("\n", head + Listing(titles), UpdateFooter);
    var text := UpdateText(postCount, stamp, titles);
    assert text[0] == UpdateTitle[0];
    assert text[|text| - 1] == UpdateFooter[|UpdateFooter| - 1];
    StripFramed("\n", text, TemplateIndent);
  }

  /**
   * The body of `send_blog_update_notification` before `strip()`: the head,
   * one numbered line per listed title, the overflow line and the footer.
   */
  method BuildUpdateBody(postCount: nat, stamp: string, titles: seq<string>) returns (body: string)
    ensures body == "\n" + UpdateHead(postCount, stamp) + Concat(NumberedLines(titles[..Min(|titles|, MaxListed)]))
                    + Overflow(|titles|) + UpdateFooter + TemplateIndent
  {
    var head := UpdateHead(postCount, stamp);
    body := "\n" + head;
    var shown := Min(|titles|, MaxListed);
    for i := 0 to shown
      invariant body == "\n" + head + Concat(NumberedLines(titles[..i]))
    {
      ListingSnoc(titles, i);
      AppendAssoc("\n" + head, Concat(NumberedLines(titles[..i])), NumberedLine(i + 1, titles[i]));
      body := body + NumberedLine(i + 1, titles[i]);
    }
    if |titles| > MaxListed {
      body := body + Overflow(|titles|);
    } else {
      assert body == body + Overflow(|titles|);
    }
    body := body + UpdateFooter + TemplateIndent;
  }

  /** The notifier of the automation: its sender account and every message handed to the SMTP server. */
  class Notifier {
    const senderEmail: string
    const senderPassword: string
    /** Whether the SMTP server takes the messages (the outcome of the network session). */
    const smtpAccepts: bool
    var outbox: seq<Email>

    constructor(senderEmail: string, senderPassword: string, smtpAccepts: bool)
      ensures this.senderEmail == senderEmail && this.senderPassword == senderPassword
      ensures this.smtpAccepts == smtpAccepts
      ensures outbox == []
    {
      this.senderEmail := senderEmail;
      this.senderPassword := senderPassword;
      this.smtpAccepts := smtpAccepts;
      outbox := [];
    }

    /** `send_email`: the message goes out; the result is the server's verdict. */
    method SendEmail(recipients: seq<string>, subject: string, body: string) returns (ok: bool)
      modifies this
      ensures outbox == old(outbox) + [Email(recipients, subject, body)]
      ensures ok == smtpAccepts
    {
      outbox := outbox + [Email(recipients, subject, body)];
      ok := smtpAccepts;
    }

    /**
     * `send_milestone_notification`: one message, to the given recipients or
     * else to the sender and the second address, under the milestone subject.
     */
    method SendMilestoneNotification(milestone: string, status: string, details: string,
                                     recipients: Option<seq<string>>, now: DateTime)
      returns (ok: bool)
      requires now.Valid()
      modifies this
      ensures outbox == old(outbox) + [Email(if recipients.None? then DefaultRecipients(senderEmail) else recipients.value,
                                             MilestoneSubject(milestone, status),
                                             MilestoneText(StatusEmoji(status), milestone, status, Stamp(now), details))]
      ensures ok == smtpAccepts
    {
      var to := if recipients.None? then DefaultRecipients(senderEmail) else recipients.value;
      var subject := MilestoneSubject(milestone, status);
      var body := CreateEmailBody(milestone, status, details, now);
      ok := SendEmail(to, subject, body);
    }

    /**
     * `send_blog_update_notification`: the body built line by line lists
     * the first ten titles and the overflow count; it always goes to the
     * sender and the second address.
     */
    method SendBlogUpdateNotification(postCount: nat, postTitles: Option<seq<string>>, now: DateTime)
      returns (ok: bool)
      requires now.Valid()
      modifies this
      ensures outbox == old(outbox) + [Email(DefaultRecipients(senderEmail), UpdateSubject(postCount),
                                             UpdateText(postCount, Stamp(now), postTitles.GetOr([])))]
      ensures ok == smtpAccepts
    {
      var titles := if postTitles.None? then [] else postTitles.value;
      var subject := UpdateSubject(postCount);
      var body := BuildUpdateBody(postCount, Stamp(now), titles);
      UpdateBodyStrips(postCount, Stamp(now), titles);
      var recipients := DefaultRecipients(senderEmail);
      ok := SendEmail(recipients, subject, Strip(body));
    }
  }
}
