# my-contact-check, modelled in Dafny

my-contact-check is a contract-review service. A user uploads a PDF
contract. An operator writes a review report for it: an overall risk level,
a summary, an overview of the contract, risk clauses and suggestions. The
user then reads the report, answers each suggestion and leaves feedback. An
administrator exports that feedback as CSV. A scheduled function marks
contracts whose retention window has passed as "expired" and deletes their
stored files.

This project models the logic in those pages and in the sweep function.
The managed backend becomes the class `Backend.Database`. It holds the
tables that logic reads and writes (contracts, reports, suggestion
responses, feedback) and the set of paths in the `contracts` storage
bucket. Each backend call is one method of that class. Whether a call fails
is not decided inside the model: the caller passes it in as an argument. So
every handler is verified against every combination of backend failures.

Modules, one per file:

- `Wrappers`: an `Option` for values that may be missing.
- `Strings`:
  - decimal rendering of integers, with a proof that it can be read back;
  - joining and splitting strings, with a round-trip lemma.
- `Backend`:
  - the row types and the status values;
  - the `Database` class.
- `Cleanup`: the retention sweep.
  - `Handle` gives the effect of one invocation as a function: the
    response, the new table and the new set of stored paths.
  - `Serve` is the handler loop, proved to have exactly that effect.
  - Lemmas state the retention properties.
- `ReportPage`, the user's report page:
  - the answers map;
  - the upsert of one answer;
  - the guarded feedback submission;
  - the save guard of a suggestion card;
  - the risk colour and label.
- `ReportEditor`, the operator's editor:
  - loading a stored report;
  - the list operations on clauses and suggestions;
  - the save, which marks the contract "completed".
- `Badges`: the status badge shared by the queue and the dashboard.
- `AdminQueue`: the staff-role gate and the three status tabs.
- `AdminAnalytics`:
  - the admin gate;
  - the statistics;
  - the CSV export. The comments field is escaped as in section 2, rule 7 of RFC 4180.
- `Dashboard`:
  - the time remaining before expiry, in integer milliseconds;
  - the badge, type label and report link.
- `SampleReport`:
  - the expand/collapse toggle;
  - consistency of the fixed sample data;
  - the level tiers.
- `Upload`:
  - the PDF-only file choice;
  - the storage path;
  - the progress sequence of an upload.

Things the model takes as parameters:

- The current time (`now` in the sweep, `diff` on the dashboard, the upload timestamp).
- Ids and timestamps the database assigns.
- Locale date formatting (`fmt` in the CSV export).
- The rows each query returns.

## Model

| member | source | states |
|---|---|---|
| Cleanup.Serve | supabase/functions/cleanup-expired-contracts/index.ts:8-71 | For every request, time and set of backend failures, the response, the new contracts table and the new stored paths are exactly `Handle` of the old state. No other table changes. |
| Cleanup.Handle | supabase/functions/cleanup-expired-contracts/index.ts:8-71 | The status is 200 or 500, and 500 exactly for a request other than OPTIONS whose fetch failed; then nothing changes. The table keeps its length, storage only loses paths, and a summary's `deleted` never exceeds the selection. |
| Cleanup.Select | supabase/functions/cleanup-expired-contracts/index.ts:19-23 | The selection is never longer than the table. |
| Cleanup.SelectExactly | supabase/functions/cleanup-expired-contracts/index.ts:19-23 | A row is selected exactly when its expiry time is before now and its status is not "expired". |
| Cleanup.SelectNone | supabase/functions/cleanup-expired-contracts/index.ts:29 | With no candidate row the selection is empty. |
| Cleanup.SelectAppend | supabase/functions/cleanup-expired-contracts/index.ts:19-23 | Selection distributes over concatenation, so the selected rows keep table order. |
| Cleanup.SweepRowsEffect | supabase/functions/cleanup-expired-contracts/index.ts:47-51 | After the loop, a row is the same row with status "expired" exactly when its id belongs to a selected row whose update succeeded. Every other row is unchanged, and the length is kept. |
| Cleanup.SweepFilesEffect | supabase/functions/cleanup-expired-contracts/index.ts:38-45 | After the loop, exactly the paths of the selected rows whose removal succeeded are gone from storage. |
| Cleanup.CountUpdatedBounds | supabase/functions/cleanup-expired-contracts/index.ts:53-57 | The counter never exceeds the number of selected rows. It equals that number exactly when no selected row's update failed. |
| Cleanup.OptionsTouchesNothing | supabase/functions/cleanup-expired-contracts/index.ts:9-11 | An OPTIONS request gets status 200, the CORS headers and no body. The table and storage are left as they were. |
| Cleanup.FetchFailureChangesNothing | supabase/functions/cleanup-expired-contracts/index.ts:25-27 | A failed fetch answers 500 with "Failed to fetch expired contracts: " followed by the detail. Nothing changes. |
| Cleanup.NothingExpiredChangesNothing | supabase/functions/cleanup-expired-contracts/index.ts:29-33 | With no candidate row the answer is "No expired contracts found" with `deleted` 0. Nothing changes. |
| Cleanup.DeletedCountBounds | supabase/functions/cleanup-expired-contracts/index.ts:53-63 | A sweep answers 200 with a summary. Its `deleted` lies between 0 and the number of selected rows, and equals that number iff every update succeeded. |
| Cleanup.SelectUnique | supabase/functions/cleanup-expired-contracts/index.ts:19-23 | The selection from a table with unique ids has unique ids. |
| Cleanup.CountUpdatedIsUpdatedIds | supabase/functions/cleanup-expired-contracts/index.ts:47-57 | With unique ids among the selected rows, the counter equals the number of their ids whose update succeeded. |
| Cleanup.DeletedCountIsUpdatedRows | supabase/functions/cleanup-expired-contracts/index.ts:47-63 | With unique ids, `deleted` is exactly the number of selected contracts whose status update succeeded, the rows `RowsAfterSweep` shows marked "expired". |
| Cleanup.StorageFailureDoesNotBlockUpdate | supabase/functions/cleanup-expired-contracts/index.ts:39-51 | Storage failures change neither the new table nor the response. A failed removal is only logged, and the update is still made. |
| Cleanup.RowsAfterSweep | supabase/functions/cleanup-expired-contracts/index.ts:48-51 | With unique ids, after one invocation each row is marked "expired" exactly when it was a candidate and its update succeeded. Every other row and column is unchanged. |
| Cleanup.FilesAfterSweep | supabase/functions/cleanup-expired-contracts/index.ts:39-45 | After one invocation, storage is the old paths minus those of the selected rows whose removal succeeded. |
| Cleanup.SecondRunFindsNothing | supabase/functions/cleanup-expired-contracts/index.ts:19-33 | Idempotence: when every update of a run succeeded, a second run at the same time selects nothing. It answers `deleted` 0 and changes nothing, whatever the backend does. |
| Cleanup.ExpiredRowCanKeepItsFile | supabase/functions/cleanup-expired-contracts/index.ts:43-51 | A concrete run where the removal fails: the row is marked "expired" while its file stays stored. |
| Cleanup.ThreeContractScenario | supabase/functions/cleanup-expired-contracts/index.ts:19-61 | A (expired, completed), B (not yet due), C (already expired): only A is selected, its file is removed and it is marked. The answer is "Cleaned up 1 expired contracts" with `deleted` 1. B and C are unchanged. |
| Strings.NatToString | supabase/functions/cleanup-expired-contracts/index.ts:61 | The decimal text of a count is non-empty and all digits, with no leading zero. |
| Strings.DigitsValueOfNatToString | supabase/functions/cleanup-expired-contracts/index.ts:61 | Reading the decimal text back gives the number. |
| Strings.NatToStringInjective | supabase/functions/cleanup-expired-contracts/index.ts:61 | Different numbers have different decimal texts. |
| Strings.IntToString | src/pages/Dashboard.tsx:48 | The text of an integer starts with '-' exactly for a negative one. It is the decimal text for a non-negative one and uses only digits and '-'. |
| Strings.SplitJoin | src/pages/AdminAnalytics.tsx:51-58 | Splitting a join at its one-character separator gives the parts back when no part holds the separator. |
| ReportPage.LastIndexOf | src/pages/Report.tsx:79-80 | The result is -1 or a row answering the index, and no later row answers it. |
| ReportPage.BuildResponses | src/pages/Report.tsx:78-81 | The map has a key exactly for each answered suggestion index. Its value is the last row with that index. |
| ReportPage.FeedbackPayload | src/pages/Report.tsx:116-121 | Efficiency 0, an empty willingness and an empty comment are sent as null. Every other value is sent as given, and the interview flag is always sent. |
| ReportPage.UpdateWithoutOwnRowChangesNothing | src/pages/Report.tsx:99-103 | The update of an answer changes nothing when no row of this report, index and user exists. |
| ReportPage.OtherUsersAnswerHidesOwn | src/pages/Report.tsx:77-109 | A concrete case: another user's answer to suggestion 0 puts index 0 in the map, so this user's answer goes to the update, which leaves the table as it was. |
| ReportPage.ReportView.constructor | src/pages/Report.tsx:50-57 | The page starts with the fetched report, user, answers and feedback flag, a rating and efficiency of 0, empty willingness and comment, no interview flag and no submission under way. |
| ReportPage.ReportView.SuggestionAction | src/pages/Report.tsx:94-111 | Without a report or a user nothing happens. Otherwise it updates when the map has the index and inserts otherwise, never both. The map then holds the new answer at that index, and every other key is unchanged. |
| ReportPage.ReportView.FeedbackSubmit | src/pages/Report.tsx:113-129 | It does nothing unless report, user and a non-zero rating are present. Otherwise it inserts the payload. `feedbackSubmitted` becomes true only when the insert returned no error, and the submitting flag ends false. |
| ReportPage.SubmitEnabled | src/pages/Report.tsx:359 | The submit button is enabled only with a non-zero rating, and always with a non-zero rating when no submission is under way. |
| ReportPage.FeedbackGuard | src/pages/Report.tsx:114 | The handler goes on exactly when a report is loaded, a user is signed in and the rating is not 0. |
| ReportPage.SubmitEnabledPassesRatingGuard | src/pages/Report.tsx:114-359 | Whenever the button is enabled on a page with a loaded report and a signed-in user, the handler's guard lets the submission through. Without a rating neither the button nor the guard lets one through. |
| ReportPage.TrimStartShape | src/pages/Report.tsx:406 | Trimming the start leaves nothing exactly for an all-white-space string. Otherwise it leaves a first character that is not white space. |
| ReportPage.TrimEndKeepsFirst | src/pages/Report.tsx:406 | Trimming the end keeps a leading character that is not white space. |
| ReportPage.TrimNonEmptyIff | src/pages/Report.tsx:406 | The trimmed reason is non-empty exactly when the reason holds a character that is not white space. |
| ReportPage.SaveEnabled | src/pages/Report.tsx:401-406 | The Save button is shown and enabled exactly when an action is chosen and the reason holds a character that is not white space. |
| ReportPage.RiskColor | src/pages/Report.tsx:131-138 | The colour is "bg-muted" exactly for a level other than high, medium or low. |
| ReportPage.RiskLabel | src/pages/Report.tsx:140-147 | The label is the level itself exactly for a level other than high, medium or low. |
| ReportPage.RiskMappings | src/pages/Report.tsx:131-147 | The colour is "bg-muted" exactly for a level other than high, medium or low, and such a level is its own label. The three known levels have distinct colours and distinct labels. |
| ReportEditor.DefaultOverviewShape | src/pages/AdminReportEditor.tsx:40-42 | The default overview has exactly five keys, all with empty values. |
| ReportEditor.FilterOutIndex | src/pages/AdminReportEditor.tsx:68 | Filtering by position drops exactly the element at that position, or nothing when the position is outside the list. |
| ReportEditor.RemoveAt | src/pages/AdminReportEditor.tsx:68 | Removing position i gives `s[..i] + s[i+1..]`, one shorter. A position outside the list leaves it unchanged. |
| ReportEditor.RemoveLastAppended | src/pages/AdminReportEditor.tsx:67-68 | Removing the element just appended restores the list. |
| ReportEditor.RemoveAtShifts | src/pages/AdminReportEditor.tsx:68 | Elements before i stay in place. Elements after i move one place forward. |
| ReportEditor.Payload | src/pages/AdminReportEditor.tsx:87-95 | The saved row carries the contract, the operator, the risk level and the summary, an object overview with the form's fields, and arrays holding the form's clauses and suggestions. These are the shapes `Load` takes over, so loading it gives back the form. |
| ReportEditor.EditorPage.constructor | src/pages/AdminReportEditor.tsx:33-44 | The form starts with risk "medium", an empty summary, the default overview and no clauses or suggestions. |
| ReportEditor.EditorPage.Load | src/pages/AdminReportEditor.tsx:55-63 | A stored report replaces the risk level and the summary (a missing summary becomes ""). Clauses and suggestions are replaced only when the stored value is an array, and the overview only when it is an object. With no stored report nothing changes. |
| ReportEditor.EditorPage.AddClause | src/pages/AdminReportEditor.tsx:67 | The old clauses, followed by the default clause. |
| ReportEditor.EditorPage.RemoveClause | src/pages/AdminReportEditor.tsx:68 | The clauses with exactly position i removed. |
| ReportEditor.EditorPage.UpdateClause | src/pages/AdminReportEditor.tsx:69-73 | For a position in range, only that field of element i changes. For any other position the list is unchanged and the result is false. |
| ReportEditor.EditorPage.AddSuggestion | src/pages/AdminReportEditor.tsx:75 | The old suggestions, followed by the default suggestion. |
| ReportEditor.EditorPage.RemoveSuggestion | src/pages/AdminReportEditor.tsx:76 | The suggestions with exactly position i removed. |
| ReportEditor.EditorPage.UpdateSuggestion | src/pages/AdminReportEditor.tsx:77-81 | For a position in range, only that field of suggestion i changes. For any other position the list is unchanged. |
| ReportEditor.EditorPage.Save | src/pages/AdminReportEditor.tsx:83-113 | Without a user nothing happens. Otherwise it updates the loaded report or inserts a new one. The contract becomes "completed" only when that save returned no error and the status update succeeded. `saving` ends false. The contract is set to "completed" whatever its status was. |
| ReportEditor.EditorPage.LoadSaved | src/pages/AdminReportEditor.tsx:87-95 | Loading the row a save writes gives back the risk level, summary, overview, clauses and suggestions of the form, and the loaded report is exactly that saved payload. |
| Badges.BadgeFor | src/pages/AdminQueue.tsx:34-40 | "completed" and "processing" each get their own badge, and every other status gets the pending badge. |
| AdminQueue.FindRole | src/pages/AdminQueue.tsx:25 | The result is none exactly when no role is "admin" or "operator". Otherwise it is the first such role. |
| AdminQueue.FirstStaffRole | src/pages/AdminQueue.tsx:25 | The first staff role at or after a position, or none. |
| AdminQueue.CheckRoleAndFetch | src/pages/AdminQueue.tsx:23-32 | Without a staff role the user is redirected and no contracts are shown. Otherwise the tabs are the partition of the fetched contracts, or of none when no data came back. |
| AdminQueue.AccessIff | src/pages/AdminQueue.tsx:25-26 | Access is granted iff the roles contain "admin" or "operator". |
| AdminQueue.WithStatus | src/pages/AdminQueue.tsx:42-44 | A tab holds exactly the contracts with that status. |
| AdminQueue.WithStatusAppend | src/pages/AdminQueue.tsx:42-44 | Filtering distributes over concatenation, so each tab keeps the fetched order. |
| AdminQueue.WithStatusLengths | src/pages/AdminQueue.tsx:42-44 | The pending, processing, completed and expired filters together hold at most all contracts, so no contract is counted twice. |
| AdminQueue.Partition | src/pages/AdminQueue.tsx:42-44 | Each tab holds exactly the fetched contracts of its status. |
| AdminQueue.PartitionProperties | src/pages/AdminQueue.tsx:42-44 | The tabs are pairwise disjoint. A contract is in some tab iff its status is pending, processing or completed. The total length is at most the number of contracts, and "expired" rows are in none. |
| AdminQueue.ActionLabel | src/pages/AdminQueue.tsx:102 | "查看报告" (view report) exactly for a completed contract, "填写报告" (fill in report) otherwise. |
| AdminAnalytics.IsAdmin | src/pages/AdminAnalytics.tsx:26 | The page is open exactly when some role of the user is "admin". |
| AdminAnalytics.CountOrZero | src/pages/AdminAnalytics.tsx:41-46 | A missing count is 0, and a present count is itself. |
| AdminAnalytics.Average | src/pages/AdminAnalytics.tsx:37 | The mean is 0 with no feedback. Otherwise, times the count, it gives the sum of the ratings. |
| AdminAnalytics.SumBounds | src/pages/AdminAnalytics.tsx:37 | With every rating in [lo, hi], the sum `Sum` of the ratings lies between lo and hi times the count; with no rows it is 0. |
| AdminAnalytics.AverageBounds | src/pages/AdminAnalytics.tsx:37 | With at least one feedback row and every rating in [lo, hi], the mean lies in [lo, hi]. With no feedback the mean is 0 (`Average`). |
| AdminAnalytics.FetchAnalytics | src/pages/AdminAnalytics.tsx:23-48 | A non-admin is redirected. An admin gets total users 0, missing counts as 0, missing feedback as none, and the mean rating of that feedback. |
| AdminAnalytics.Escape | src/pages/AdminAnalytics.tsx:55 | Escaping never shortens the text and keeps every character other than the double quote. |
| AdminAnalytics.EscapeIsWellEscaped | src/pages/AdminAnalytics.tsx:55 | In an escaped comment, double quotes occur only in pairs. |
| AdminAnalytics.UnescapeEscape | src/pages/AdminAnalytics.tsx:55 | Halving the doubled quotes of an escaped comment gives the comment back. |
| AdminAnalytics.EscapeUnescape | src/pages/AdminAnalytics.tsx:55 | Every text whose quotes come in pairs is the escaping of its unescaped text. |
| AdminAnalytics.QuoteField | src/pages/AdminAnalytics.tsx:55 | The comments field starts and ends with a double quote, and its inside has only paired quotes. |
| AdminAnalytics.QuoteRoundTrip | src/pages/AdminAnalytics.tsx:55 | Removing the enclosing quotes and halving the doubled ones gives the comment back. |
| AdminAnalytics.QuoteFieldOnto | src/pages/AdminAnalytics.tsx:55 | Every quoted field with paired inner quotes is the quoting of the text it unquotes to. |
| AdminAnalytics.Cells | src/pages/AdminAnalytics.tsx:53-57 | A feedback line has as many fields as the header. Its fields are built by `EfficiencyCell`, `WillingnessCell`, `QuoteField` and `InterviewCell`. |
| AdminAnalytics.CsvLines | src/pages/AdminAnalytics.tsx:51-58 | The export is joined from exactly 1 + the number of feedback rows records: the header and one record per row. A comment holding a line feed spreads its record over several text lines, inside its quotes. |
| AdminAnalytics.Csv | src/pages/AdminAnalytics.tsx:51-58 | The export is the header line alone without feedback, and otherwise starts with the header line and a line feed. |
| Strings.Join | src/pages/AdminAnalytics.tsx:52-58 | Joining one part gives that part; joining two or more starts with the first part and the separator. |
| AdminAnalytics.HeaderColumns | src/pages/AdminAnalytics.tsx:52 | The header splits at its commas into the six column names. |
| AdminAnalytics.CellsAvoid | src/pages/AdminAnalytics.tsx:53-57 | A character that is not a quote, digit, '-', "是" or "否", and that the typed text and timestamp lack, is in none of the fields. |
| AdminAnalytics.RowColumns | src/pages/AdminAnalytics.tsx:53-57 | When the typed text and the timestamp hold no comma, a feedback line splits at its commas into its six fields. |
| AdminAnalytics.CsvLinesBack | src/pages/AdminAnalytics.tsx:51-58 | When no typed text or timestamp holds a line feed, splitting the export at "\n" gives the header and one line per row, 1 + count lines. |
| AdminAnalytics.ExportEnabledIff | src/pages/AdminAnalytics.tsx:125 | The export button is enabled exactly when the export would hold a feedback line. |
| AdminAnalytics.SubmittedFeedbackExport | src/pages/AdminAnalytics.tsx:53-57 | Feedback saved by the report page is exported as the user gave it. An unset efficiency or willingness gives an empty field, the comment is quoted, and the flag is "是" or "否". |
| Dashboard.HoursLeft | src/pages/Dashboard.tsx:46 | For a positive difference, hours·3600000 ≤ diff < (hours+1)·3600000. |
| Dashboard.MinutesLeft | src/pages/Dashboard.tsx:47 | For a positive difference, 0 ≤ mins < 60 and hours·3600000 + mins·60000 ≤ diff < hours·3600000 + (mins+1)·60000. |
| Dashboard.TimeRemaining | src/pages/Dashboard.tsx:43-49 | "已过期" (expired) iff diff ≤ 0. Otherwise the text is hours, "小时", minutes, "分钟". |
| Dashboard.MinutesTotal | src/pages/Dashboard.tsx:46-47 | The whole minutes left are hours·60 + mins. |
| Dashboard.TextDeterminesPair | src/pages/Dashboard.tsx:48 | The hours-and-minutes text determines both numbers. |
| Dashboard.TimeRemainingSameMinute | src/pages/Dashboard.tsx:43-49 | Two positive differences show the same text exactly when they fall in the same whole minute. |
| Dashboard.StatusBadgeCases | src/pages/Dashboard.tsx:51-60 | "expired" shows the pending badge. Only "completed" and "processing" show another. |
| Dashboard.ContractTypeLabel | src/pages/Dashboard.tsx:62-64 | The NDA label iff the type is "nda", and the trial-agreement label otherwise. |
| Dashboard.ShowsReportLink | src/pages/Dashboard.tsx:144 | The report link is shown iff the status is "completed", and then the badge is the completed one. |
| SampleReport.RemoveAll | src/pages/SampleReport.tsx:88 | Removing every `id` leaves no `id`, keeps the membership of every other value and changes nothing when `id` is absent. |
| SampleReport.RemoveAllAppend | src/pages/SampleReport.tsx:88 | Removal distributes over concatenation. |
| SampleReport.Toggle | src/pages/SampleReport.tsx:86-90 | Toggling flips whether the card's id is in the expanded list. |
| SampleReport.ToggleFlips | src/pages/SampleReport.tsx:86-90 | Toggling flips whether `id` is expanded and leaves every other id's membership unchanged. |
| SampleReport.ToggleTwiceRestores | src/pages/SampleReport.tsx:86-90 | Toggling an absent id twice gives back exactly the original list. |
| SampleReport.CountLevel | src/pages/SampleReport.tsx:20-24 | No level is counted more often than there are risks. |
| SampleReport.SampleDataConsistent | src/pages/SampleReport.tsx:20-84 | The 2/3/1 distribution counts the high, medium and low risks. Their total 6 is the bar divisor and the number of risks. Ids are 1 to 6, and the initially expanded ids 1 and 2 are ids of risks. |
| SampleReport.RiskTier | src/pages/SampleReport.tsx:92-112 | "high" and "medium" have their own icon and badge tier, and every other level falls to the low tier. |
| SampleReport.SampleTiers | src/pages/SampleReport.tsx:25-80 | Every sample level is high, medium or low, and the sample shows all three tiers. |
| Upload.StoragePath | src/pages/Upload.tsx:47 | The path always starts with the user's id and a slash. |
| Upload.StoragePathOwner | src/pages/Upload.tsx:47 | For an id without a slash, the first path segment is the owner's id. |
| Upload.StoragePathsDiffer | src/pages/Upload.tsx:47 | Different upload times give different paths for the same user and file name. |
| Upload.ProgressLabel | src/pages/Upload.tsx:177 | Four bands: below 50, below 80, below 100, and 100 or more. |
| Upload.ProgressTraces | src/pages/Upload.tsx:42-79 | Success steps through 20, 50, 80, 100, strictly increasing and each in its own label band. A failure follows the same steps and then drops to 0. |
| Upload.CanStart | src/pages/Upload.tsx:43 | An upload starts exactly when a file, a non-empty contract type and a user are present. |
| Upload.UploadDisabled | src/pages/Upload.tsx:188 | The button is enabled only with a file and a non-empty contract type and no upload under way, and disabled in each other case. |
| Upload.ButtonMatchesGuard | src/pages/Upload.tsx:188 | An enabled button with a signed-in user always starts an upload. When an upload could start, the button is disabled only while uploading. |
| Upload.UploadPage.ChooseFile | src/pages/Upload.tsx:22-40 | A dropped or selected file is taken iff its type is "application/pdf". Otherwise the current file stays. |
| Upload.UploadPage.constructor | src/pages/Upload.tsx:13-16 | The page starts with no file, no contract type, no upload under way and progress 0. |
| Upload.UploadPage.ClearFile | src/pages/Upload.tsx:167 | The chosen file is dropped. |
| Upload.UploadPage.ChooseType | src/pages/Upload.tsx:119 | The chosen contract type is stored. |
| Upload.UploadPage.HandleUpload | src/pages/Upload.tsx:42-79 | Nothing happens unless file, type and user are present. A storage failure stops before any insert, with progress 0 and uploading cleared. An insert failure stores only the file, with progress 0 and uploading cleared. Success stores the file and the row, with progress 100. The progress values follow `ProgressTrace`. |
| Backend.Database.RemoveFile | supabase/functions/cleanup-expired-contracts/index.ts:39-41 | The error is reported exactly when the call fails. On success the path is gone from storage, and on failure storage is unchanged. |
| Backend.Database.UploadFile | src/pages/Upload.tsx:50-52 | The error is reported exactly when the call fails. On success the path is stored, and on failure storage is unchanged. |
| Backend.Database.UpdateContractStatus | supabase/functions/cleanup-expired-contracts/index.ts:48-51 | The error is reported exactly when the call fails. On success every contract with the id takes the status and nothing else changes; on failure the table is unchanged. |
| Backend.Database.InsertContract | src/pages/Upload.tsx:62-67 | The error is reported exactly when the call fails. On success the row is appended, and on failure the table is unchanged. |
| Backend.Database.UpdateReport | src/pages/AdminReportEditor.tsx:99 | The error is reported exactly when the call fails. On success the report with the id takes every column of the payload but its id; on failure the table is unchanged. |
| Backend.Database.InsertReport | src/pages/AdminReportEditor.tsx:101 | The error is reported exactly when the call fails. On success the report is appended, and on failure the table is unchanged. |
| Backend.Database.UpdateResponse | src/pages/Report.tsx:99-103 | The error is reported exactly when the call fails. On success the responses of that report, index and user take the new action and reason; on failure the table is unchanged. |
| Backend.Database.InsertResponse | src/pages/Report.tsx:105-107 | The error is reported exactly when the call fails. On success the response is appended, and on failure the table is unchanged. |
| Backend.Database.InsertFeedback | src/pages/Report.tsx:116-121 | The error is reported exactly when the call fails. On success the feedback row is appended, and on failure the table is unchanged. |

## Left out

- Rendering, toasts and navigation. A redirect appears only as an outcome value.
- The Supabase client, the HTTP transport and the environment. They are replaced by `Backend.Database`, with the failures of each call given as arguments.
- Row order is decided by the database: newest-first in the queue and dashboard, unspecified in the sweep. The model keeps the order the rows are handed in.
- Row-level security is not modelled. The database is assumed to return the rows each query asks for.
- Clock and locale formatting: the current time, the ISO timestamp in the sweep query, and the date text in the queue, dashboard and CSV. They are parameters.
- Floating point is not modelled:
  - the one-decimal rounding of the mean satisfaction;
  - the bar width in percent on the sample report;
  - the file size in MB.
- AdminAnalytics.FetchAnalytics: `avgSatisfaction` is the unrounded mean, stated through sum and count.
- AdminAnalytics.CsvLinesBack: splitting the export text at line feeds gives its records back only when no comment, typed text or timestamp holds a line feed. A comments box accepts several lines, and no quote-aware record split is modelled.
- The Blob download of the CSV and the byte-order mark put in front of it are not modelled.
- Concurrency: overlapping sweep runs, and a second click while a save or upload is in flight.
- The sweep's failures are given as inputs: the fetch error as its message (`fetchError`), and the removal and update failures as the sets of contract ids whose call fails (`removeFails`, `updateFails`). Console logging is not modelled.
- A query error other than an unsuccessful fetch is not modelled: an exception thrown inside the loop would end in the 500 branch after partial changes.
- A sweep fetch that returns no data and no error is not represented. The model's fetch always yields the table's candidate rows; the source answers such a fetch the way it answers an empty selection (supabase/functions/cleanup-expired-contracts/index.ts:29).
- Loading the contract row on the report and editor pages is not modelled, as it is display only. So is the existing-feedback check and the sign-out buttons.
- ReportEditor.EditorPage.UpdateClause and ReportEditor.EditorPage.UpdateSuggestion: the source copies the array shallowly and then assigns into the shared element object. That also changes the element seen through the previous state. In the model, elements are values, so the old state keeps its element. An out-of-range index, where the source throws, is modelled as no change.
- ReportEditor.EditorPage.Load: the source accepts any non-null object as the overview, arrays included. The model's `Json` type keeps arrays of records apart, so a stored overview that is an array leaves the previous overview in place.
- ReportEditor.EditorPage.Save: the error of the status update is not looked at, in the source as in the model.
- ReportPage.ReportView.SuggestionAction: the backend's error is not looked at either, and the answers map is updated regardless.
- The answers on the report page are fetched for the report without a filter on the user (src/pages/Report.tsx:77), while the update is filtered by the user (src/pages/Report.tsx:99-103). When another user has answered the same suggestion, this user's answer is never stored, yet the map shows it (`ReportPage.OtherUsersAnswerHidesOwn`). Row-level policies on that table may rule this case out; they are not part of this model, so it is not claimed as a finding.
- Files with no logic of their own are outside the model: authentication and password reset, the agreement guard, the landing page sections, the waitlist form and the routing table.
