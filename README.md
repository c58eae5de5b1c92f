# notion-ai-webhook in Dafny

A model of the core of notion-ai-webhook, a small Rust service. Notion calls
it through webhooks. It reads a Notion page, turns the page's blocks into a
Gemini prompt, and writes what Gemini generates back to Notion. It has three
automations:

- **diary**: fetch the page, build a prompt from its text, generate with
  Gemini 3 Flash, and append the result to the same page.
- **review**: the same steps, generating with Gemini 3 Pro.
- **weekly report**: query the diary database for the last week (today − 7 to
  today, oldest first). Fetch every entry and gather the text of the non-blank
  ones, each under a `--- Diary Entry (<id>) ---` header. With no text, the
  report page is cleared and given one paragraph saying so. Otherwise the
  report is generated first, then the page is cleared (child databases and
  buttons survive), the report is appended, and a copy is filed as a new page
  `週次レポート (<start> ~ <today>)` of the report database.

It also models:

- the generic webhook handler;
- the older diary prompt builder;
- the Notion block type with its text extraction and `Unsupported` fallback;
- the Gemini request types with their defaults and wire names;
- the service constructors, which trim their inputs.

Modules, one per source file plus helpers:

- `notion_types.dfy` (module `NotionTypes`): `src/types/notion.rs`: blocks, `extract_text`, the `type` tag with its `Unsupported` fallback, and the request shapes
- `gemini_types.dfy` (module `GeminiTypes`): `src/types/gemini.rs`: prompt turns, `GenerationConfig::default`, wire names
- `service.dfy` (module `Service`): `src/service.rs`: the trimming constructors
- `automation.dfy` (module `Automation`): `src/automation.rs`: `handle_webhook`, the older `gen_diary_prompt`
- `diary.dfy` (module `Diary`): `src/automation/diary.rs`
- `review.dfy` (module `Review`): `src/automation/review.rs`
- `weekly_report.dfy` (module `WeeklyReport`): `src/automation/weekly_report.rs`
- `store.dfy` (module `Store`): the remote Notion and Gemini calls, as one object `Services`
- `strings.dfy` (module `Strings`): Rust's `join`, `char::is_whitespace`, `str::trim`
- `calendar.dfy` (module `Calendar`): chrono's day arithmetic and `%Y-%m-%d`
- `wrappers.dfy` (module `Wrappers`): `Option`, `Result`

The remote services are one object, `Store.Services`:

- How each call turns out is fixed when the object is made: the pages a fetch
  can read, the query result, the generated blocks, and which list, delete,
  append or create calls fail.
- The block listing of the page being cleared (`children`) shrinks as blocks
  are deleted.
- Every call made is recorded in order in `events`.

The automations' methods state their result and the calls they make as
functions of the inputs and of the object's initial state. Lemmas prove what
those functions mean: what clearing deletes and keeps, when the aggregate is
empty, and what the date window admits.

Dates are day numbers counted from 1970-01-01. `today` is a parameter.

Where the sources disagree, the model follows the code that builds each value:

- The block type is the one in `src/types/notion.rs:36-56` plus a `Code` case.
  The review test builds a block with `NotionBlock::code`, which that file does
  not declare.
- The tests' constructors (`paragraph`, `heading_2`, `code`) each wrap one
  span whose `plain_text` is the given string.
- The automations build the system instruction as a one-part user turn.
  `src/types/gemini.rs:7` declares it as a string, which is what the older
  `gen_diary_prompt` in `src/automation.rs` builds. `GeminiTypes.Prompt` is
  the string form and `GeminiTypes.ChatPrompt` is the turn form.

## Model

| member | source | states |
|---|---|---|
| NotionTypes.SpansText | src/types/notion.rs:73-86 | no spans gives `None`; otherwise `Some` of every span's `plain_text`, in order, with no separator |
| NotionTypes.BlockContentText | src/types/notion.rs:73-86 | `BlockContent::extract_text` is `None` exactly when `rich_text` is empty, so one empty span gives `Some("")`; otherwise the spans' text concatenated in order |
| NotionTypes.ExtractText | src/types/notion.rs:88-98 | `Unsupported` has no text; every other block is `None` exactly when it has no spans, else the concatenation of its spans' text, so headings and paragraphs delegate to their content unchanged |
| NotionTypes.ExtractPartsAppend | src/automation/diary.rs:66-72 | the `filter_map(extract_text)` of a concatenation of blocks is the concatenation of the two lists of texts |
| NotionTypes.ExtractPartsSingle | src/automation/diary.rs:66-72 | one block contributes its text when it has one and nothing otherwise |
| NotionTypes.ExtractPartsCount | src/automation/diary.rs:66-72 | the number of texts equals the number of blocks whose `extract_text` is `Some` |
| NotionTypes.TextIndicesSnoc | src/automation/diary.rs:66-72 | a block added at the end adds its own index to the blocks with text exactly when it has text |
| NotionTypes.ParagraphBlock | src/automation/diary.rs:99 | `NotionBlock::paragraph(t)` is a paragraph whose text is exactly `t` |
| NotionTypes.Heading2Block | src/automation/diary.rs:100 | `NotionBlock::heading_2(t)` is a second-level heading whose text is exactly `t` |
| NotionTypes.CodeBlock | src/automation/review.rs:100 | `NotionBlock::code(t, lang)` keeps the language, and its text is `t` alone, without the language |
| NotionTypes.DecodeBlock | src/types/notion.rs:36-56 | a tag outside the known ones decodes to `Unsupported` and never fails; a known tag fails exactly when its payload field is missing or, for "code", the payload has no language, and otherwise decodes to the case of that tag, carrying the payload's spans |
| NotionTypes.DecodeEncode | src/types/notion.rs:36-56 | every block decodes back to itself from its own encoding |
| NotionTypes.DecodeBlockList | src/types/notion.rs:31-34 | a list decodes exactly when every element does, element by element, in order |
| NotionTypes.UnknownTagsDecode | src/types/notion.rs:54-55 | a list made only of unknown tags always decodes, to `Unsupported` blocks, which give no text |
| NotionTypes.UnsupportedSuffixHasNoParts | src/types/notion.rs:95 | any run of `Unsupported` blocks contributes no text |
| GeminiTypes.DefaultConfig | src/types/gemini.rs:36-43 | `GenerationConfig::default()` asks for JSON at temperature 0.8 |
| GeminiTypes.DefaultsDiffer | src/types/gemini.rs:36-49 | the config's default mime type (JSON) differs from `ResponseMimeType::default()` (text) |
| GeminiTypes.UserTurn | src/automation/diary.rs:61-64 | a turn built for the user has role `User` and exactly the given parts |
| GeminiTypes.PartsOf | src/automation/diary.rs:71 | `.map(\|text\| Part { text })` keeps every text, in order |
| GeminiTypes.RoleWireNames | src/types/gemini.rs:17-22 | roles are written "user" and "model", and the names tell the roles apart |
| GeminiTypes.MimeWireNames | src/types/gemini.rs:45-52 | mime types are written "text/plain" and "application/json", and the names tell them apart |
| GeminiTypes.FieldWireNames | src/types/gemini.rs:3-34 | the camelCase field names carry no `_` and tell the fields apart |
| Service.NewNotionService | src/service.rs:11-25 | always `Ok`; keeps the client; stores the key and both database ids trimmed |
| Service.NewGeminiService | src/service.rs:33-39 | always `Ok`; keeps the client; stores the key trimmed |
| Service.NotionServiceStable | src/service.rs:18-23 | building a Notion service from a built one's fields gives the same service |
| Service.GeminiServiceStable | src/service.rs:35-38 | building a Gemini service from a built one's fields gives the same service |
| Service.BlankKeyStoredEmpty | src/service.rs:37 | a whitespace-only key is stored as "" |
| Strings.Trim | src/service.rs:20-22 | `str::trim` gives the slice of the input with exactly its leading and trailing whitespace removed |
| Strings.TrimStart | src/service.rs:20 | cuts only leading whitespace, and the rest does not start with whitespace |
| Strings.TrimEnd | src/service.rs:20 | cuts only trailing whitespace, and the rest does not end with whitespace |
| Strings.TrimOfUnique | src/service.rs:20 | that description determines the trimmed string |
| Strings.TrimOfEmptyIffBlank | src/automation/weekly_report.rs:94 | anything meeting that description is empty exactly when the input is all whitespace |
| Strings.TrimOfBounds | src/service.rs:20 | a non-empty trim starts and ends on non-whitespace, and only whitespace lies outside it |
| Strings.TrimEmptyIffBlank | src/automation/weekly_report.rs:94 | `trim().is_empty()` holds exactly when the text is all whitespace |
| Strings.TrimIdempotent | src/service.rs:20-22 | trimming a trimmed string changes nothing |
| Strings.JoinEmptySeparator | src/types/notion.rs:78-83 | `join("")` is plain concatenation |
| Strings.JoinSnoc | src/automation/weekly_report.rs:195-203 | one more part adds one separator and the part, and nothing else |
| Strings.JoinLength | src/automation/weekly_report.rs:195-203 | a join is as long as its parts plus one separator per gap |
| Strings.JoinBlank | src/automation/weekly_report.rs:94 | with a whitespace separator, a join is all whitespace exactly when every part is |
| Strings.IsBlankConcat | src/automation/weekly_report.rs:94 | a concatenation is all whitespace exactly when both halves are |
| Strings.ConcatCons | src/types/notion.rs:78-83 | concatenating a part before the rest puts its text first |
| Strings.ConcatAppend | src/automation/weekly_report.rs:95-98 | concatenating two runs of parts is concatenating their concatenations |
| Strings.ConcatEmptyIff | src/automation/weekly_report.rs:107 | a concatenation is empty exactly when every part is |
| Automation.HeaderToStr | src/automation.rs:14 | `HeaderValue::to_str` succeeds exactly when every byte is visible ASCII or tab, and then gives the same characters |
| Automation.ContentTypeDiaryIff | src/automation.rs:12-20 | a webhook is `Diary` exactly when its `content_type` header holds the bytes of "diary"; a missing header, another value or one with a byte outside visible ASCII is `Unknown` |
| Automation.HandleWebhook | src/automation.rs:11-46 | an unparsable body answers "Invalid data" with no remote call; otherwise exactly one fetch of the payload's page is made, a failed fetch answers "Failed to get notion page data", and a successful one answers the body unchanged |
| Automation.GenDiaryPrompt | src/automation.rs:48-89 | the system instruction is the given string; one user turn whose parts are the blocks' texts in order, one per block with text; the default config |
| Diary.GenDiaryPrompt | src/automation/diary.rs:54-87 | the system instruction is one user turn with the one instruction part; one user turn whose parts are the blocks' texts in order, one per block with text; the default config |
| Diary.GenDiaryPromptExample | src/automation/diary.rs:95-112 | a paragraph "Today was a good day." and a heading "Goals" give one turn with exactly those two parts, in that order, and an instruction |
| Diary.DiaryAutomationProcess | src/automation/diary.rs:29-52 | fetch, generate with Flash from the fetched page's prompt, append the generated blocks to the fetched page's id; a failed fetch or generation ends the run with its error and makes no later call; the append's outcome is the result |
| Review.GenReviewPrompt | src/automation/review.rs:54-87 | as the diary prompt, with the review instruction |
| Review.GenReviewPromptExample | src/automation/review.rs:95-112 | a paragraph and `code("fn test() {}", "rust")` give exactly two parts, "I learned about Rust tests." then "fn test() {}", without the language |
| Review.ReviewAutomationProcess | src/automation/review.rs:29-52 | as the diary run, generating with Pro |
| Store.Services.constructor | src/api.rs:6-30 | the remote services with the given outcomes, a unique-id listing and no calls made yet |
| Store.Services.FetchPage | src/api.rs:6-30 | records the fetch; a readable page gives its blocks under the requested id, any other fails |
| Store.Services.QueryDatabase | src/automation/weekly_report.rs:76-81 | records the query with its database id and filter; gives the fixed query result or fails |
| Store.Services.Generate | src/automation/weekly_report.rs:128-133 | records the prompt and model; gives the fixed generated blocks or fails |
| Store.Services.ListBlockIds | src/automation/weekly_report.rs:179 | records the listing call; gives the current listing or fails |
| Store.Services.DeleteBlock | src/automation/weekly_report.rs:190 | records the delete; a failing id leaves the listing as it was, any other removes that block from it; ids stay unique |
| Store.Services.AppendBlocks | src/automation/weekly_report.rs:139-140 | records the page id and the blocks; succeeds unless appends fail |
| Store.Services.CreatePage | src/automation/weekly_report.rs:167-170 | records the request; succeeds unless creation fails |
| Store.WithoutAppend | src/automation/weekly_report.rs:190 | deleting from a concatenated listing deletes from each part |
| Store.WithoutAbsent | src/automation/weekly_report.rs:190 | deleting an id the listing does not hold changes nothing |
| Store.WithoutSubset | src/automation/weekly_report.rs:190 | deleting leaves only blocks that were listed |
| Store.WithoutUnique | src/automation/weekly_report.rs:190 | deleting keeps block ids unique |
| Store.UniqueCons | src/automation/weekly_report.rs:179 | a block whose id no other block has can head a listing with unique ids |
| Store.HeadIdNotInTail | src/automation/weekly_report.rs:179 | with unique ids, the first block's id is not among the rest even after a deletion |
| WeeklyReport.ClearPageContent | src/automation/weekly_report.rs:175-193 | lists the page, then makes exactly the delete calls of the deletion loop; the result is the listing's failure, the first failed deletion, or `Ok`; the listing is left as the deletions make it |
| WeeklyReport.DeleteUnpreserved | src/automation/weekly_report.rs:180-191 | the deletion loop: deletes, in order, each block that is neither a child database nor a button, up to and including the first failed deletion, whose error it returns |
| WeeklyReport.KeptStep | src/automation/weekly_report.rs:182-188 | skipping a preserved block keeps the loop's account of calls, outcome and listing |
| WeeklyReport.DeletedStep | src/automation/weekly_report.rs:190 | deleting a block keeps the loop's account, whether the deletion succeeds or fails |
| WeeklyReport.LoopDone | src/automation/weekly_report.rs:192 | a loop that reaches the end has made every call of the specification and ends `Ok` |
| WeeklyReport.DeleteCallsSnoc | src/automation/weekly_report.rs:190 | one more deletion adds one delete call at the end of the record |
| WeeklyReport.DeleteFromListing | src/automation/weekly_report.rs:190 | in a listing with unique ids, deleting a block takes out that block alone |
| WeeklyReport.OthersDiffer | src/automation/weekly_report.rs:179 | in a listing with unique ids, no other block shares a block's id |
| WeeklyReport.WithoutMiddle | src/automation/weekly_report.rs:190 | deleting the one block with an id leaves the blocks around it in order |
| WeeklyReport.PreservedOfAppend | src/automation/weekly_report.rs:180-188 | the preserved blocks of a concatenation are those of each part |
| WeeklyReport.DeletableIdsAppend | src/automation/weekly_report.rs:180-190 | the deletable ids of a concatenation are those of each part |
| WeeklyReport.DeleteOutcomeOkIff | src/automation/weekly_report.rs:180-192 | the loop ends `Ok` exactly when no deletable block's deletion fails |
| WeeklyReport.ClearedWhenOk | src/automation/weekly_report.rs:180-192 | a loop that ends `Ok` deletes every deletable block, in listed order, and leaves exactly the child databases and buttons, in order |
| WeeklyReport.DeleteLogShape | src/automation/weekly_report.rs:190 | the deletions tried are a prefix of the deletable ids in order; all but the last succeed; on failure the last one tried is the one that failed and its error is the result |
| WeeklyReport.PreservedSurvive | src/automation/weekly_report.rs:182-188 | child databases and buttons always remain listed, and nothing unlisted appears |
| WeeklyReport.PreservedNeverDeleted | src/automation/weekly_report.rs:182-188 | with unique ids, no delete call is ever made for a child database or a button |
| WeeklyReport.LogIdsFrom | src/automation/weekly_report.rs:180 | every id the loop deletes is the id of a listed block |
| WeeklyReport.ClearExample | src/automation/weekly_report.rs:179-192 | for a paragraph, a child database, a button and a heading, the loop deletes the paragraph and heading; if the paragraph's deletion fails, it stops there with that error and the listing is unchanged |
| WeeklyReport.ExtractPageTextSnoc | src/automation/weekly_report.rs:195-203 | a block added at the end adds its text on its own line after the text so far; a block without text adds nothing, not even a line break |
| WeeklyReport.PageTextBlankIff | src/automation/weekly_report.rs:195-203 | a page's text is all whitespace exactly when every block text is |
| WeeklyReport.AggregateDiaryText | src/automation/weekly_report.rs:86-105 | the loop fetches every result, in order, and builds exactly the concatenation of each fetched, non-blank entry's "\n--- Diary Entry (<id>) ---\n<text>\n", in query order |
| WeeklyReport.FetchCallsStep | src/automation/weekly_report.rs:91 | one more entry adds its fetch at the end of the record |
| WeeklyReport.AggregateStep | src/automation/weekly_report.rs:88-105 | one more entry adds its own contribution at the end |
| WeeklyReport.AggregateFetched | src/automation/weekly_report.rs:92-99 | a fetched entry adds its section exactly when its text does not trim to "" |
| WeeklyReport.AggregateSkipped | src/automation/weekly_report.rs:101-103 | an entry whose fetch fails adds nothing |
| WeeklyReport.AggregateTextAppend | src/automation/weekly_report.rs:88-105 | the aggregate of a concatenation of results is the two aggregates, in order |
| WeeklyReport.ContributionEmptyIff | src/automation/weekly_report.rs:94-98 | an entry adds nothing exactly when its fetch fails or its text is all whitespace |
| WeeklyReport.AggregateEmptyIff | src/automation/weekly_report.rs:107 | the aggregate is empty exactly when every result's fetch fails or gives an all-whitespace text |
| WeeklyReport.GenWeeklyReportPrompt | src/automation/weekly_report.rs:205-230 | one user turn whose one part is the whole aggregate; the instruction as a one-part user turn; the default config |
| WeeklyReport.WeeklyWindow | src/automation/weekly_report.rs:40-74 | an entry matches the query exactly when its "日付" lies from today − 7 to today, both included; the query asks for ascending order on "日付" |
| WeeklyReport.ReportTitleExample | src/automation/weekly_report.rs:143 | run on 2026-04-03, the title is "週次レポート (2026-03-27 ~ 2026-04-03)" |
| WeeklyReport.CivilWeekStartExample | src/automation/weekly_report.rs:41 | day 20539 is 2026-03-27 |
| WeeklyReport.CivilTodayExample | src/automation/weekly_report.rs:40 | day 20546 is 2026-04-03 |
| WeeklyReport.ExampleWeekStart | src/automation/weekly_report.rs:56 | day 20539 is written "2026-03-27" |
| WeeklyReport.ExampleToday | src/automation/weekly_report.rs:62 | day 20546 is written "2026-04-03" |
| WeeklyReport.WeeklyReportProcess | src/automation/weekly_report.rs:33-173 | a failed query ends the run. With an empty aggregate, the page is cleared and then given the one paragraph "対象期間の日記が見つかりませんでした。", and nothing is generated. Otherwise, in order: generate with Flash from the aggregate, clear, append the generated blocks, and file them as the new page's children under the report title and today's date. A failed creation still ends `Ok`; any other failure ends the run with its error and makes no later call |
| Calendar.SplitEra | src/automation/weekly_report.rs:41 | splits a day of a 400-year era into a year of the era (0 to 399) and a day of a March-based year (0 to 365) that add back to it |
| Calendar.SplitEraLastDay | src/automation/weekly_report.rs:41 | the 366th day of a March-based year occurs only when the following January–February year is a leap year |
| Calendar.LastDayOfGroup | src/automation/weekly_report.rs:41 | within a century of an era, the last day of a four-year group falls before a leap year: a year divisible by 4 that is not a century, or the 400th year |
| Calendar.LeapShift | src/automation/weekly_report.rs:41 | shifting a year by whole 400-year eras keeps whether it is a leap year |
| Calendar.YearOfEraParts | src/automation/weekly_report.rs:41 | the leap-year counts of a year of an era |
| Calendar.MonthDay | src/automation/weekly_report.rs:41 | the month (1 to 12) and day of a day of a March-based year, the day within the month's length (29 February only for the 366th day), which map back to it |
| Calendar.CivilOfEraDay | src/automation/weekly_report.rs:41 | the date of a day of an era has a month from 1 to 12 and a day from 1 to 31 |
| Calendar.CivilOfEraDayInMonth | src/automation/weekly_report.rs:41 | when the 366th day occurs only before a leap year, the date's day lies within its month's length, leap years counted |
| Calendar.CivilFromDays | src/automation/weekly_report.rs:40-41 | every day number has a date with a month from 1 to 12 and a day from 1 to 31 |
| Calendar.CivilFromDaysInMonth | src/automation/weekly_report.rs:40-41 | every day number's date is a real date: its day lies within its month's length, with 29 February only in leap years |
| Calendar.EraSplit | src/automation/weekly_report.rs:41 | a year splits into its era and its year of the era |
| Calendar.EraDayRoundTrip | src/automation/weekly_report.rs:41 | a date built from a day of an era counts back to that day |
| Calendar.CivilRoundTrip | src/automation/weekly_report.rs:41 | turning a day number into a date and back gives the same day number |
| Calendar.CivilFromDaysInjective | src/automation/weekly_report.rs:41 | different day numbers have different dates |
| Calendar.DecimalDigits | src/automation/weekly_report.rs:56 | a number's decimal digits: at least one, all digits, and at most four below 10000 |
| Calendar.DecimalDigitsValue | src/automation/weekly_report.rs:56 | the digits denote the number |
| Calendar.LeadingZerosValue | src/automation/weekly_report.rs:56 | leading zeros do not change the number denoted |
| Calendar.LeadingZerosAlone | src/automation/weekly_report.rs:56 | a run of zeros denotes 0 |
| Calendar.Padded | src/automation/weekly_report.rs:56 | zero padding keeps the value and reaches the width |
| Calendar.FormatDateParses | src/automation/weekly_report.rs:56 | for a four-digit year, `%Y-%m-%d` is ten characters and reads back as the day's date |
| Calendar.TwoDigits | src/automation/weekly_report.rs:56 | `%m` and `%d` of a number below 100 are its two digits |
| Calendar.FourDigits | src/automation/weekly_report.rs:56 | `%Y` of a year from 1000 to 9999 is its four digits |
| Calendar.FormatCivilDigits | src/automation/weekly_report.rs:56 | a date with a four-digit year is written as its ten characters, digit by digit |
| Calendar.DigitChars | src/automation/weekly_report.rs:56 | the ten digit characters |
| Calendar.CivilEpoch | src/automation/weekly_report.rs:40 | day 0 is 1970-01-01 |
| Calendar.FormatDateEpoch | src/automation/weekly_report.rs:56 | day 0 is written "1970-01-01" |
| Calendar.CivilBeforeEpoch | src/automation/weekly_report.rs:41 | day −1 is 1969-12-31 |
| Calendar.FormatDateBeforeEpoch | src/automation/weekly_report.rs:56 | day −1 is written "1969-12-31" |
| Calendar.CivilLeapDay | src/automation/weekly_report.rs:41 | day 19782 is 2024-02-29 |
| Calendar.FormatDateLeapDay | src/automation/weekly_report.rs:56 | day 19782 is written "2024-02-29" |

## Left out

- HTTP, authentication and JSON decoding of the responses (`src/api.rs`).
  The code of `query_database`, `fetch_block_ids`, `delete_block`,
  `append_notion_block_to_page`, `create_page` and
  `gen_notion_page_contents_from_gemini_api` is not part of this model. They
  are calls on `Store.Services`, whose outcomes are fixed when the object is
  made. How Gemini's answer is decoded into blocks is not modelled.
- Fetching a page always gives the same result for the same id. Blocks
  appended to the report page do not show up in later listings or fetches,
  because no step of the core reads them back.
- Store.Services.ListBlockIds: gives the one listing the object holds,
  whatever page id it is asked for, since a run clears one page. Listings of
  other pages are not modelled.
- The `handle_*` functions (`tokio::spawn`, answering 200 at once), `main.rs`,
  `router.rs` and environment loading are concurrency and startup, not logic.
- `src/types.rs` is an older duplicate of the type declarations, with no logic.
- JSON text parsing: `Automation.HandleWebhook` takes the parse result as a
  parameter. `NotionTypes.DecodeBlock` models only the `type` tag and the
  payload field, not JSON syntax.
- NotionTypes.DecodeBlock: decodes tag "code", and fails when its payload
  has no `language`. Under `src/types/notion.rs:54-55` as written, "code" is
  an unknown tag that decodes to `Unsupported`. With that file, a code
  block's text never reaches a prompt, and a code block without a language
  is no error.
- Request headers (the type `Automation.HeaderMap`) are exact-case keys
  with one value each. The `http` crate's `HeaderMap` matches names case-insensitively, and
  its `get` returns the first of several values for a name.
- The prompt files read by `include_str!` and the older builder's literal
  instruction are the `instruction` parameter.
- `Local::now()` is the `today` parameter, a day number.
- The query filter holds day numbers rather than `%Y-%m-%d` strings.
  `Calendar.FormatDateParses` shows the two determine each other for
  four-digit years.
- `NotionTypes.Matches` stands for how Notion applies the filter. Notion's own
  filtering is not part of this model.
- The `f32` temperature 0.8 is the exact real 0.8.
- `println!` logging, including the log of a failed page creation and of a
  skipped fetch.
- Wire names are functions from each enum and field to its string; serde's
  serializer is not modelled.
- Error values are a datatype naming the failed call, not boxed errors with
  messages.
