# AI news blog pipeline, modelled in Dafny

The repository runs a small pipeline for a Korean AI-news blog:

- two crawlers (`google_ai_news_crawler.py`, `naver_ai_news_crawler.py`) search Google News and Naver News for AI keywords page by page, turn each result container into a record (title, link, press, summary, date, image), de-duplicate the records by title and save them as a dated spreadsheet;
- three NewsAPI scripts (`ai_news_fetcher.py`, `ai_news_fetcher_ko.py`, `test_excel_generation.py`) build an article table, flatten its `source` dict into a name column, optionally rename the English fields to Korean, and write a dated workbook;
- `scripts/excel_to_markdown.py` turns every spreadsheet row into a Jekyll post under `_posts/`, with a slug made from the title and a numeric suffix when the name is taken;
- `scripts/main_automation.py` and `scripts/main_automation_oauth.py` run the whole job (convert, `git add/commit/push`, notify) and report every milestone by mail, through SMTP (`scripts/gmail_notifier.py`) or the Gmail API.

The model has one module per core file plus shared modules:

- `Options`, `Chars`, `Decimal`, `Dates`, `Substrings` and `PercentCoding` give the Python built-ins the scripts rely on (`str.strip`, `split`, `replace`, `join`, `lower`, `title`, `strftime`, `urllib.parse.unquote`) their Python meaning.
- `Markup` is the parsed page, seen only through `select` and `select_one`.
- `SearchCrawl` and `NewsRecords` hold what the two crawlers share.
- `ArticleTable` is the pandas table of the NewsAPI scripts: a sequence of labelled columns, with the in-place transforms as methods of a `DataFrame` class.
- `AutomationSteps` holds the decisions both automation scripts share.

Code that changes state step by step is imperative Dafny, proved against specification functions:

- the crawl loops, the title de-duplication and the row loop of `excel_to_markdown`;
- the file-name collision loop;
- the `BlogAutomation` classes, which record every notification and git command;
- the `DataFrame` methods.

The network, the file system, git, SMTP, the Gmail API and the clock are inputs.

## Model

| member | source | states |
|---|---|---|
| GoogleCrawler.SearchUrlInjective | google_ai_news_crawler.py:33-36 | pages with different start offsets request different URLs, so each page is its own request |
| GoogleCrawler.PageUrlsDistinct | google_ai_news_crawler.py:33-36 | two different pages of one keyword are requested at two different URLs |
| GoogleCrawler.UnwrapLink | google_ai_news_crawler.py:77-87 | an href without `/url?q=` is kept unchanged as the link |
| GoogleCrawler.UnwrapRedirect | google_ai_news_crawler.py:81-83 | any href whose first `/url?q=` is followed by a target free of `/url?q=` and `&sa=`, then `&sa=` and any tail, yields the percent-decoded target, whatever precedes the marker |
| GoogleCrawler.UnwrapEscapedRedirect | google_ai_news_crawler.py:81-83 | unwrapping inverts Google's redirect: an escaped article URL comes back exactly, whatever follows `&sa=` |
| GoogleCrawler.Extract | google_ai_news_crawler.py:66-106 | a container gives a record iff a title selector matches; title is that element's stripped text; link from the anchor or empty; source, summary and date are the stripped text of the first element their selectors match, `정보 없음` when none does; the image is the first image's `src`, empty without one |
| GoogleCrawler.SelectNewsItems | google_ai_news_crawler.py:48-62 | the containers are those of the first of the three selectors that matches anything, else none |
| GoogleCrawler.CollectRecords | google_ai_news_crawler.py:66-107 | the container loop appends exactly the records of the containers, in order |
| GoogleCrawler.GetGoogleNews | google_ai_news_crawler.py:10-116 | exactly `pages` pages are requested (none for a non-positive count), page `p` at start `p*10`, and the result is the crawl specification over those pages |
| GoogleCrawler.FetchPage | google_ai_news_crawler.py:33-113 | one pass of the page loop requests page `p` at start `p*10` and extends the list to the crawl of pages `0..p` |
| GoogleCrawler.FailedPageSkipped | google_ai_news_crawler.py:40-113 | a failed request drops only its own page's records; earlier and later pages still count |
| GoogleCrawler.CrawlAndSave | google_ai_news_crawler.py:154-186 | main gathers both keywords two pages each, keeps the first record of each title (no title lost, none twice) and saves under `google_ai_news_YYYYMMDD.xlsx` |
| GoogleCrawler.GatherNews | google_ai_news_crawler.py:159-166 | the keyword loop collects both keywords' two-page crawls, in keyword order |
| GoogleCrawler.SaveToExcel | google_ai_news_crawler.py:118-152 | nothing is saved for an empty list; a missing or empty name becomes `google_ai_news_YYYYMMDD.xlsx` |
| NaverCrawler.SearchUrlInjective | naver_ai_news_crawler.py:33-36 | pages with different start offsets request different URLs |
| NaverCrawler.PageUrl | naver_ai_news_crawler.py:33-36 | page `p` is requested at start `(p-1)*10+1` |
| NaverCrawler.PageUrlsDistinct | naver_ai_news_crawler.py:33-36 | two different pages of one keyword are requested at two different URLs |
| NaverCrawler.Extract | naver_ai_news_crawler.py:67-101 | a container gives a record iff one of three title selectors matches; title is that element's stripped text and link its `href` (empty when missing); press, summary and date are the stripped text of the first element their selectors match, `정보 없음` when none does; the image is the first matching image's `src`, empty without one |
| NaverCrawler.SelectNewsItems | naver_ai_news_crawler.py:48-63 | the three-selector container cascade: first non-empty selection, else none |
| NaverCrawler.CollectRecords | naver_ai_news_crawler.py:67-102 | the container loop appends exactly the records of the containers, in order |
| NaverCrawler.GetNaverNews | naver_ai_news_crawler.py:10-111 | pages `1..pages` are requested at offsets 1, 11, 21, ...; the result is the crawl specification over them |
| NaverCrawler.FetchPage | naver_ai_news_crawler.py:33-108 | one pass of the page loop requests page `p` at its offset and extends the list to the crawl of pages `1..p` |
| NaverCrawler.FailedPageSkipped | naver_ai_news_crawler.py:40-108 | a failed request drops only its own page's records |
| NaverCrawler.CrawlAndSave | naver_ai_news_crawler.py:149-181 | both keywords, two pages each, de-duplicated by title, saved under `naver_ai_news_YYYYMMDD.xlsx` |
| NaverCrawler.GatherNews | naver_ai_news_crawler.py:154-161 | the keyword loop collects both keywords' two-page crawls, in keyword order |
| NaverCrawler.SaveToExcel | naver_ai_news_crawler.py:113-147 | nothing is saved for an empty list; the default name is `naver_ai_news_YYYYMMDD.xlsx` |
| SearchCrawl.Records | google_ai_news_crawler.py:66-106 | a page never yields more records than containers |
| SearchCrawl.CrawlStep | google_ai_news_crawler.py:33-106 | crawling one more page appends exactly that page's records |
| SearchCrawl.CrawlKeepsEarlierPages | google_ai_news_crawler.py:28-106 | records of earlier pages stay a prefix whatever later pages bring |
| SearchCrawl.FailedPageSkipped | naver_ai_news_crawler.py:107-108 | a failed request for page `p` yields the records of the pages before it followed by those after it |
| SearchCrawl.RecordsExtracted | naver_ai_news_crawler.py:67-101 | every record comes from some container through the extraction |
| SearchCrawl.RecordsComplete | naver_ai_news_crawler.py:67-101 | every container the extraction accepts contributes its record |
| Markup.FirstNonEmpty | naver_ai_news_crawler.py:48-56 | the cascade is empty iff every selector selects nothing, and otherwise equals one selector's selection |
| Markup.FirstMatch | naver_ai_news_crawler.py:71 | the `select_one(a) or select_one(b) or ...` fallback is none iff no selector matches, else the element of a matching selector |
| Markup.FirstNonEmptyOfThree | google_ai_news_crawler.py:48-56 | the nested ifs over three selectors compute the cascade |
| NewsRecords.UniqueTitles | google_ai_news_crawler.py:168-175 | de-duplication loses no title |
| NewsRecords.UniqueDistinct | google_ai_news_crawler.py:168-175 | no two kept records share a title |
| NewsRecords.UniqueKeepsFirst | google_ai_news_crawler.py:168-175 | each kept record is the first record of its title, in the order of first occurrences |
| NewsRecords.UniqueOfDistinct | naver_ai_news_crawler.py:163-170 | a list with distinct titles is left unchanged |
| NewsRecords.UniqueIdempotent | naver_ai_news_crawler.py:163-170 | de-duplicating twice equals de-duplicating once |
| NewsRecords.DedupByTitle | naver_ai_news_crawler.py:163-170 | the set-and-list loop computes the de-duplication specification, with distinct titles and the same title set |
| NewsRecords.DatedNameReadsBack | google_ai_news_crawler.py:131-133 | the dated file name is prefix, eight digits, `.xlsx`, and the digits read back as the day |
| NewsRecords.SaveNews | naver_ai_news_crawler.py:113-147 | empty input saves nothing; an empty or missing name becomes the dated default; when the write succeeds there is one row per record, in order |
| PercentCoding.Unquote | google_ai_news_crawler.py:83 | decoding never lengthens the text |
| PercentCoding.UnquoteEscape | google_ai_news_crawler.py:83 | `unquote` inverts `%XX` escaping |
| PercentCoding.UnquoteWithoutPercent | google_ai_news_crawler.py:83 | text without `%` decodes to itself |
| ExcelToMarkdown.RemoveSpecial | scripts/excel_to_markdown.py:15 | the result has only word characters, whitespace and hyphens, and text made only of those is unchanged |
| ExcelToMarkdown.CollapseRuns | scripts/excel_to_markdown.py:16 | after collapsing, no whitespace is left and no two hyphens are adjacent; a leading word character is kept |
| ExcelToMarkdown.CleanFilename | scripts/excel_to_markdown.py:12-17 | a slug has only word characters and hyphens, no double hyphen, no hyphen at either end, no upper-case letter |
| ExcelToMarkdown.CleanFilenameFixes | scripts/excel_to_markdown.py:12-17 | a string already shaped like a slug is its own slug |
| ExcelToMarkdown.CleanFilenameIdempotent | scripts/excel_to_markdown.py:12-17 | cleaning a slug again changes nothing |
| ExcelToMarkdown.RowTitlePrecedence | scripts/excel_to_markdown.py:80 | the title is `제목` if present, else `title`, else the default `AI News {index+1}` |
| ExcelToMarkdown.FieldPrecedence | scripts/excel_to_markdown.py:31-52 | the source URL comes from `링크`, else `url`; the body from `내용`, else `content`, else `요약`; null cells are skipped |
| ExcelToMarkdown.PostLayout | scripts/excel_to_markdown.py:40-61 | every post opens with the front matter between `---` lines and the `# title` heading and ends with the footer; with a non-empty source URL the link line comes right before the footer, and without one the body is followed directly by the footer |
| ExcelToMarkdown.BuildFrontMatter | scripts/excel_to_markdown.py:21-35 | the front matter dict built step by step is the specification's (layout, categories, tags, author, title, optional source_url) |
| ExcelToMarkdown.AppendBody | scripts/excel_to_markdown.py:46-52 | the body paragraph appended is the first non-null of `내용`, `content`, `요약`, or nothing |
| ExcelToMarkdown.CreatePostContent | scripts/excel_to_markdown.py:19-61 | the text built by `+=` is the post specification |
| ExcelToMarkdown.FileStore.Write | scripts/excel_to_markdown.py:98-100 | an accepted write sets that one path and changes nothing else; a refused write changes nothing |
| ExcelToMarkdown.CandidateNameInjective | scripts/excel_to_markdown.py:84-92 | different counters give different file names |
| ExcelToMarkdown.CandidatesBound | scripts/excel_to_markdown.py:88-93 | no more candidates can all be taken than there are files, so the counter loop ends |
| ExcelToMarkdown.ChooseFilePath | scripts/excel_to_markdown.py:87-93 | the chosen path is free, and every smaller counter's path was taken |
| ExcelToMarkdown.ExcelToMarkdownFile | scripts/excel_to_markdown.py:63-109 | the posts written are one per row in row order up to the first refused write, each under a name no file had, with its row's post text; existing files untouched and no other file added; the paths are returned iff every row was written, otherwise `[]` with the written posts left on disk; an unreadable workbook writes nothing |
| GmailNotifier.StatusEmojiLookup | scripts/gmail_notifier.py:39-47 | the table's emoji for the five statuses, and `📝` exactly for any other status |
| GmailNotifier.CreateEmailBody | scripts/gmail_notifier.py:35-65 | `strip()` removes only the template frame, so the body is the milestone text with the details whole |
| GmailNotifier.EmailBodyMentions | scripts/gmail_notifier.py:49-65 | the body opens with the status emoji and contains the milestone, the status and the details |
| GmailNotifier.NumberedLinesAt | scripts/gmail_notifier.py:110-111 | line `i` of the listing is title `i`, numbered from 1 |
| GmailNotifier.Overflow | scripts/gmail_notifier.py:113-114 | the overflow line is written exactly when there are more than ten titles |
| GmailNotifier.ListingShape | scripts/gmail_notifier.py:110-114 | the listing is the first `min(n,10)` titles, numbered in order, followed by the overflow line |
| GmailNotifier.BuildUpdateBody | scripts/gmail_notifier.py:101-118 | the `+=` loop builds the head, the numbered listing of at most ten titles, the overflow line and the footer |
| GmailNotifier.UpdateBodyStrips | scripts/gmail_notifier.py:101-124 | `strip()` of the assembled update body removes only the template's frame |
| GmailNotifier.Notifier.constructor | scripts/gmail_notifier.py:15-19 | the notifier keeps its sender and password and has sent nothing |
| GmailNotifier.Notifier.SendEmail | scripts/gmail_notifier.py:67-92 | one message goes to the outbox; the result is the server's verdict |
| GmailNotifier.Notifier.SendMilestoneNotification | scripts/gmail_notifier.py:21-33 | one mail to the given recipients, or else to the sender and `iysin0102@gmail.com`, under the milestone subject with the milestone body |
| GmailNotifier.Notifier.SendBlogUpdateNotification | scripts/gmail_notifier.py:94-124 | one mail to the sender and the second address, with the post-count subject and the listing body |
| AutomationSteps.NothingToCommitTolerated | scripts/main_automation.py:99 | a commit whose output mentions `nothing to commit` does not stop the upload |
| AutomationSteps.GitRun | scripts/main_automation.py:91-107 | one to three commands run, the first always `git add .` |
| AutomationSteps.Upload | scripts/main_automation.py:89-115 | the upload succeeds iff add and push succeed and the commit is not fatal; it fails at add iff add fails; a push failure means add and commit passed |
| AutomationSteps.GitRunShortCircuit | scripts/main_automation.py:91-107 | a successful upload ran add, commit, push in order; a failed add runs nothing else; push runs iff add passed and the commit was not fatal |
| AutomationSteps.RunGitSteps | scripts/main_automation.py:89-107 | the add, commit, push sequence runs exactly the upload specification's commands and reaches its outcome |
| AutomationSteps.Conversion | scripts/main_automation.py:61-83 | conversion succeeds iff some path was returned, with that count; "no spreadsheet" iff none was found |
| AutomationSteps.ConvertWorkbooks | scripts/main_automation.py:61-83 | the conversion outcome of the workbooks; on success the returned paths are, spreadsheet after spreadsheet and row after row, fresh posts naming their rows and holding their post text; otherwise none; every added file is a post of the run, and without a refused write no file besides the returned ones is added |
| AutomationSteps.PostTitles | scripts/main_automation.py:121-128 | never more titles than paths |
| AutomationSteps.PostTitleOfPost | scripts/main_automation.py:123-128 | every post `excel_to_markdown` names has a title: its slug and counter, hyphens as spaces, title-cased |
| AutomationSteps.PostTitlesOfPosts | scripts/main_automation.py:121-128 | the posts of a run give exactly one title each |
| AutomationSteps.ConvertAll | scripts/main_automation.py:65-75 | every spreadsheet converted in turn: the returned paths are the concatenation, in file order, of each spreadsheet's posts in row order, each new, distinct, naming its row and holding its post text; earlier files kept; every added file is a post of the run, and without a refused write nothing else is added |
| AutomationSteps.ReadPostTitles | scripts/main_automation.py:121-128 | the title loop computes the title specification |
| MainAutomation.CompletionStripped | scripts/main_automation.py:155-165 | stripping the completion template leaves exactly the report |
| MainAutomation.RunReportsOutcome | scripts/main_automation.py:132-167 | a run opens with its start and the conversion start, and ends with the completion report iff posts were made and uploaded |
| MainAutomation.BlogAutomation.constructor | scripts/main_automation.py:20-30 | a notifier exists iff sender e-mail and password are both set and non-empty |
| MainAutomation.BlogAutomation.SendNotification | scripts/main_automation.py:32-40 | the notice is recorded and nothing else changes; the result is the mail server's verdict, or success when there is no notifier |
| MainAutomation.BlogAutomation.ProcessExcelFiles | scripts/main_automation.py:54-83 | success iff some path was returned; then the returned paths are the posts of every fully converted spreadsheet in file and row order, fresh, distinct, with their post text; without a refused write no other file is added; the start and the outcome are reported |
| MainAutomation.BlogAutomation.CommitAndPushChanges | scripts/main_automation.py:85-115 | success iff the git steps succeed; the commands run and the notices issued are those of the upload specification |
| MainAutomation.BlogAutomation.SendBlogUpdateNotification | scripts/main_automation.py:117-130 | with a notifier and posts, one update mail listing the titles read from the paths; otherwise nothing |
| MainAutomation.BlogAutomation.RunFullAutomation | scripts/main_automation.py:132-167 | the run succeeds iff some path was returned and the upload went through; git runs only when there are posts; the posts are those of the conversion in order; the notices are the run specification |
| MainAutomation.BlogAutomation.Publish | scripts/main_automation.py:146-167 | after a conversion: the upload, then on success the update mail and the completion report |
| MainAutomationOAuth.UpdateDescriptionNames | scripts/main_automation_oauth.py:171-174 | the update names each of the first three titles; with three or fewer it is exactly those, joined by `, `; with more it ends in `...` |
| MainAutomationOAuth.RunReportsOutcome | scripts/main_automation_oauth.py:176-223 | a run opens with its start notification and ends with the completion report iff posts were made and uploaded |
| MainAutomationOAuth.BlogAutomationOAuth.constructor | scripts/main_automation_oauth.py:24-45 | without a configuration file the built-in one gives a notifier; otherwise a notifier exists iff `client_id` is set and non-empty |
| MainAutomationOAuth.BlogAutomationOAuth.SendNotification | scripts/main_automation_oauth.py:47-53 | sent through Gmail when there is a service, else printed and counted as sent |
| MainAutomationOAuth.BlogAutomationOAuth.ProcessExcelFiles | scripts/main_automation_oauth.py:67-107 | success iff some path was returned; the posts in file and row order with their post text; without a refused write no other file is added; start and outcome notifications |
| MainAutomationOAuth.BlogAutomationOAuth.CommitAndPushChanges | scripts/main_automation_oauth.py:109-156 | success iff the git steps succeed; the commands and the start and outcome notifications of the upload |
| MainAutomationOAuth.BlogAutomationOAuth.SendBlogUpdateNotification | scripts/main_automation_oauth.py:158-174 | with a Gmail service and posts, one update notification naming the titles; otherwise nothing |
| MainAutomationOAuth.BlogAutomationOAuth.RunFullAutomation | scripts/main_automation_oauth.py:176-223 | without a Gmail service the run fails right after its start notice and touches nothing; otherwise it succeeds iff some path was returned and the upload went through, with the posts of the conversion in order |
| MainAutomationOAuth.BlogAutomationOAuth.Publish | scripts/main_automation_oauth.py:202-223 | after a conversion: the upload, then on success the update and the completion report |
| ArticleTable.FetchArticles | ai_news_fetcher.py:6-43 | articles are returned iff there is a non-empty key, a response, status `ok` and an `articles` field, and they are that field (the Korean fetcher's copy is identical) |
| ArticleTable.ColumnKeys | ai_news_fetcher.py:54 | the table's columns are the article keys, each once, and nothing else |
| ArticleTable.Frame | ai_news_fetcher.py:54 | one column per key, in first-seen order, each with one cell per article |
| ArticleTable.Find | ai_news_fetcher.py:60 | the index of the first column with that header, the column count iff absent |
| ArticleTable.SourceNames | ai_news_fetcher.py:61 | each cell becomes the dict's `name`, or empty text when it is not a dict or has no name |
| ArticleTable.Dropped | ai_news_fetcher.py:62 | the dropped header no longer occurs |
| ArticleTable.DroppedKeeps | ai_news_fetcher.py:62 | dropping keeps exactly the columns with other headers |
| ArticleTable.AssignedKeeps | ai_news_fetcher.py:61 | assigning a column adds it and keeps every column with another header |
| ArticleTable.FlattenedSource | ai_news_fetcher.py:60-62 | after flattening there is no `source`; without `source` nothing changes; a new target comes last with the source names |
| ArticleTable.FlattenedKeeps | ai_news_fetcher.py:60-62 | every column other than `source` and the target survives; the names column is present whenever `source` was; nothing else is added |
| ArticleTable.RenamedOne | ai_news_fetcher_ko.py:78 | a rename relabels exactly the matching columns and keeps every cell |
| ArticleTable.RenamedAbsent | ai_news_fetcher_ko.py:76-78 | renaming a header the table lacks changes nothing, so the presence check is only a shortcut |
| ArticleTable.KoreanRelabel | ai_news_fetcher_ko.py:65-78 | applying the seven renames in order gives each header its Korean name |
| ArticleTable.KoreanRenamed | ai_news_fetcher_ko.py:65-78 | after the Korean renames each column has the Korean name of its header and the same cells |
| ArticleTable.DataFrame.constructor | ai_news_fetcher.py:54 | the table is built from the articles, one cell per article in each column |
| ArticleTable.DataFrame.FlattenSource | ai_news_fetcher.py:60-62 | the in-place add and drop produce the flattening specification |
| ArticleTable.DataFrame.RenameColumns | ai_news_fetcher_ko.py:75-78 | the rename loop produces the renaming specification, keeping the table rectangular |
| AiNewsFetcher.Filename | ai_news_fetcher.py:77-78 | the name is `ai_news_`, eight digits that read back as the day, `.xlsx` |
| AiNewsFetcher.SaveToExcel | ai_news_fetcher.py:45-69 | written iff there are articles and the write succeeds; the sheet is the flattened table with `source_name`, no `source`, one cell per article |
| AiNewsFetcher.FetchAndSave | ai_news_fetcher.py:71-82 | a sheet is written iff the fetch returned articles and the write succeeds, under the day's name |
| AiNewsFetcherKo.Filename | ai_news_fetcher_ko.py:93-94 | the name is `ai_news_ko_`, eight digits that read back as the day, `.xlsx` |
| AiNewsFetcherKo.KoreanTable | ai_news_fetcher_ko.py:60-78 | every flattened column under its Korean name with its cells |
| AiNewsFetcherKo.SaveToExcel | ai_news_fetcher_ko.py:45-85 | written iff there are articles and the write succeeds; the sheet is the Korean table |
| AiNewsFetcherKo.FetchAndSave | ai_news_fetcher_ko.py:87-98 | a sheet is written iff the fetch returned articles and the write succeeds, under the day's name |
| AiNewsFetcherKo.KoreanTableNoSource | ai_news_fetcher_ko.py:60-78 | the Korean table never has a `source` column |
| AiNewsFetcherKo.KoreanTableNames | ai_news_fetcher_ko.py:60-62 | the Korean table has a `출처` column whenever the articles had `source` |
| AiNewsFetcherKo.KoreanNameOfSource | ai_news_fetcher_ko.py:65-73 | no Korean name is `source`, and `출처` keeps its name |
| TestExcelGeneration.Language | test_excel_generation.py:92 | the language is `en` iff the first argument is `en`, otherwise `ko` |
| TestExcelGeneration.NameColumn | test_excel_generation.py:58 | the names column is `출처` for `ko` and `source_name` otherwise |
| TestExcelGeneration.Filename | test_excel_generation.py:46-47 | the name is `ai_news_test_`, eight digits that read back as the day, `.xlsx` |
| TestExcelGeneration.TableLanguages | test_excel_generation.py:57-77 | in Korean the table is the Korean fetcher's; in any other language it is the English fetcher's, unrenamed |
| TestExcelGeneration.SaveToExcel | test_excel_generation.py:40-86 | True iff there are articles and the conversion and write succeed; the sheet is the table of the language under the test name |
| TestExcelGeneration.RunSample | test_excel_generation.py:88-97 | the sample run succeeds exactly when the write does |
| TestExcelGeneration.UniformColumns | test_excel_generation.py:7-38 | articles sharing the sample keys give exactly those columns, in order |
| TestExcelGeneration.FlattenFreshTarget | test_excel_generation.py:57-60 | when `source` is first and the target is new, flattening keeps the other headers in order and appends the target |
| TestExcelGeneration.SampleKoreanHeaders | test_excel_generation.py:51-77 | the Korean sample workbook's headers are 작성자, 제목, 설명, 링크, 이미지_링크, 발행일, 내용, 출처 |
| Chars.Lower | scripts/excel_to_markdown.py:17 | `lower()` keeps the length and lowers each character |
| Chars.TitleCaseAt | scripts/main_automation.py:127 | `title()` upper-cases a cased letter at the start of a word, lowers it inside one, and keeps other characters |
| Chars.TitleCaseIdempotent | scripts/main_automation.py:127 | applying `title()` twice equals applying it once |
| Substrings.IndexOf | google_ai_news_crawler.py:81 | the result is the leftmost occurrence, or none when there is none |
| Substrings.JoinSplit | google_ai_news_crawler.py:82 | joining a split with its separator gives back the text |
| Substrings.SplitPartsFree | google_ai_news_crawler.py:82 | no part of a split contains the separator |
| Substrings.SplitMax | scripts/main_automation.py:125 | `split(sep, k)` yields between 1 and `k+1` parts |
| Substrings.ReplaceIsJoinSplit | scripts/main_automation.py:125-127 | `replace` equals joining the split with the replacement |
| Substrings.Strip | google_ai_news_crawler.py:72 | the result has no whitespace at either end and is no longer than the input |
| Substrings.StripFramed | scripts/gmail_notifier.py:65 | stripping a text framed by whitespace removes exactly the frame |
| Substrings.JoinContains | scripts/main_automation_oauth.py:173 | `', '.join(parts)` contains every part |
| Decimal.DigitsValueOfNatToString | scripts/main_automation.py:78 | the digits written for a count read back as that count |
| Decimal.NatToStringInjective | google_ai_news_crawler.py:36 | different numbers are written differently |
| Dates.Iso | scripts/excel_to_markdown.py:74 | `%Y-%m-%d` is ten characters with hyphens at 4 and 7 and digits elsewhere |
| Dates.Stamp | scripts/gmail_notifier.py:37 | `%Y-%m-%d %H:%M:%S` is nineteen characters and starts with the date |
| Dates.MinuteStamp | scripts/main_automation.py:97 | `%Y-%m-%d %H:%M` is the seconds stamp cut after the minutes |
| Dates.ParseCompactOfCompact | google_ai_news_crawler.py:180 | `%Y%m%d` reads back as the same date |
| Dates.CompactInjective | naver_ai_news_crawler.py:175 | different days get different `%Y%m%d` stamps |

## Left out

- HTTP requests, headers, `raise_for_status` and the random and fixed `time.sleep` pauses: a page's response is a map from URL to parsed page, and a missing URL stands for any exception on that page.
- Real HTML parsing and CSS selector semantics: a page or container records the answer to each selector query.
- The debug HTML dumps written when a page has no containers.
- All `print` output.
- The spreadsheet and workbook writes (`to_excel`), `pd.read_excel` and `yaml.dump`. A write's success is an input. The workbook is the `Sheet` (name and columns) it receives. For `excel_to_markdown`, a spreadsheet is `Unreadable` or its rows together with the first row whose post file the operating system refuses to write, and `yaml.dump` is a function parameter.
- `datetime.now()`: each operation takes the date or time as an input. A run reads the clock once, although the source reads it at each call.
- Python's Unicode `\w`, `lower()` and `title()`: `\w` is ASCII letters, digits, `_`, Hangul and CJK ideographs, and case mappings change ASCII letters only.
- `urllib.parse.unquote`: escapes decode to the character with that code, not through UTF-8.
- `urllib.parse.quote` of the search keywords is the constant escaped form of the two fixed keywords.
- `subprocess` git, SMTP and the Gmail API: what each git command reports, whether the SMTP server accepts, and whether the Gmail service exists and sends are inputs.
- `os.chdir` and `os.makedirs`.
- ExcelToMarkdown.FileStore.Write: a refused write leaves no file behind. A write that fails after `open` has created the file, leaving it empty or partial, is not modelled.
- `glob`: the spreadsheets found are the input list, in glob's order.
- `scripts/gmail_oauth.py` and the OAuth set-up and check scripts are not part of this model. The OAuth notifier's send result is one constant per run.
- `NewsApiClient` and its request parameters (query, language, yesterday's date, page size) are not part of this model. The answer is an input.
- The command-line dispatch of the two automation scripts (`process`, `push`, `test-email`) and `load_email_config`'s file reading: the configuration is an input.
- The `except Exception` branch of `commit_and_push_changes` (`예외 발생`): git failures are reported through the command results, and no other step can raise in the model.
- Exceptions inside pandas other than the write: the write outcome stands for every failure of the conversion.
- The `if not created_files` branch of `run_full_automation` cannot be reached, because `process_excel_files` reports success only with a non-empty list. The model leaves out its notification.
- MainAutomation.BlogAutomation.RunFullAutomation: `createdFiles` is a ghost out-parameter naming the posts of the run, which the source keeps in a local.
- MainAutomationOAuth.BlogAutomationOAuth.Publish: it requires a Gmail service and at least one post, because `run_full_automation` reaches these steps only then.
- ExcelToMarkdown.ChooseFilePath: it requires a non-empty date string that does not start with `/`, which every `%Y-%m-%d` date meets. Without it, `os.path.join` could make two counters name the same file.
- PercentCoding.UnquoteEscape: it is stated for characters below 256 only, because escaping is byte-wise and UTF-8 is not modelled.
