# Voice2Action in Dafny

Voice2Action turns a recorded meeting into a meeting record. The browser page
(`frontend/js/upload.js`) checks the audio file the user picked and uploads
it, then polls the job and moves a progress bar. The FastAPI backend
(`backend/main.py`) keeps every job in an in-memory `jobs` map and runs a
pipeline: transcription, analysis by YandexGPT, publishing to Google Docs.
It records each job in a SQLite job store (`backend/database.py`) with three
tables: `jobs`, `analysis` and `extracted_tasks`. The Word and Excel
generators read the language model's analysis text line by line to find its
`## Header` sections and its `Задача:` / `Дедлайн:` / `Ответственный:` /
`Приоритет:` task records. The Jira issue builder and the Google Sheets
writer read no text: they take a list of task dicts that is already parsed,
and turn each task into an issue or a sheet row.

This project models that core and proves properties of it.

- **Stateful code becomes classes.**
  - `Main.Backend` holds the `jobs` map and the job store.
  - `Database.TranscriptDB` holds the three tables.
  - `Upload.UploadPage` holds the page's module-level variables.
- **Loops become loops.** The line parsers, the Excel row and width loops,
  the Jira loop and the Sheets values loop are methods with invariants.
- **Specifications.** Each such method is proved against a function, and the
  lemmas beside that function state what the source promises.
- **Outside services are inputs.** Speech-to-text, the language model, Jira,
  Google, `json.loads`, `JSON.stringify` and the clock are not modelled as
  code. The stage outcomes, the returned ids and keys, and the parsed values
  are parameters instead.

Modules:

- `Wrappers`: `Option` and `Result`.
- `JsonData`: JSON values, as `json.loads` and `response.json()` return them.
- `Seqs`: `Map` over a sequence.
- `Text`: Python's and JavaScript's string built-ins.
- `Records`: the task and analysis dicts, with keys that may be missing.
- `AnalysisText`: the line parsers, specified.
- `WordGenerator` and `ExcelGenerator`: the parsers as loops, plus the Excel task sheet.
- `YandexGpt`, `JiraService`, `GdocsService`: the service modules.
- `Database`: the job store.
- `Main`: the backend's endpoints and pipeline.
- `Upload`: the browser page.

### Behaviour of the code worth knowing

- A job starts as `processing` at progress 0. There is no `queued` state.
- The analysis parsers default a task's priority to `Средний`. The job store
  and the Sheets writer default it to `Medium`.
- `export_results` exports nothing. It answers `already_exported` for
  `google_docs` and ignores other targets.
- `delete_job` never answers 404 for an unknown id: see Findings.
- `analyze_transcript` returns whatever JSON value the model's reply parses
  to: a list, a null, or a dict of any shape. The model keeps it as a JSON
  value.
  - `save_analysis` commits only for a dict whose values it can bind and
    iterate (`Database.Saves`). sqlite3 binds None, a bool, a float, a str
    and an `int` within 64 bits. On anything else it rolls back and returns
    False, so the stored job stays `transcribed`.
  - A value that is not a dict makes the pipeline raise AttributeError at
    backend/main.py:105, which fails the job.
- `backend/main.py` imports `add_to_google_docs` from
  `services.gdocs_service` (backend/main.py:27-38), and that module does not
  define it. The ImportError is re-raised, so the module as given does not
  load. The model describes the endpoints as they would behave once the
  import resolves, with the publishing step's outcome as an input.

## Model

| member | source | states |
|---|---|---|
| Text.StripIdempotent | backend/services/word_generator.py:130-133 | `strip()` applied twice is `strip()` applied once |
| Text.StripSpaces | backend/services/word_generator.py:130-133 | `strip()` removes exactly the leading and trailing whitespace: the result is the middle slice, it neither starts nor ends with whitespace, and everything cut off is whitespace |
| Text.TextAfterBetween | backend/services/word_generator.py:174 | `line.split(m)[1]` starts right after the first `m`, does not contain `m`, and ends at the next `m` or at the end of the line |
| Text.JoinSplit | backend/services/word_generator.py:121 | joining the pieces of `split(sep)` with `sep` gives back the text |
| Text.SplitConcat | frontend/js/upload.js:104 | splitting `a + sep + b` gives the pieces of `a` followed by the pieces of `b` |
| Text.SplitCount | backend/services/jira_service.py:82 | `len(s.split('-'))` is the number of dashes plus one |
| Text.Take | backend/services/yandex_gpt.py:93 | `s[:n]` is a prefix of `s`, of length `min(len(s), n)` |
| AnalysisText.LinesConcat | backend/services/word_generator.py:121 | the lines of `a + "\n" + b` are the lines of `a` followed by the lines of `b` |
| AnalysisText.FieldOf | backend/services/word_generator.py:180-185 | the elif chain: `Дедлайн:` wins over `Ответственный:`, which wins over `Приоритет:`; the chosen marker occurs in the line |
| AnalysisText.ReadTaskLine | backend/services/word_generator.py:169-185 | a line opens a task exactly when it contains `Задача:`, and sets a field exactly when it does not contain `Задача:` but holds a field marker |
| AnalysisText.FillFieldsLastWins | backend/services/word_generator.py:179-185 | after a task's field lines, each field holds the value of the last line that sets it, or its earlier value; the description never changes |
| AnalysisText.ScanTasksKeepsDone | backend/services/word_generator.py:170-171 | finished tasks are never changed or reordered by the rest of the loop |
| AnalysisText.ParseTasksFollowTaskLines | backend/services/word_generator.py:162-190 | one task per line containing `Задача:`, in line order, and the k-th description is the stripped text after the first marker of the k-th such line |
| AnalysisText.ParseTasksConcat | backend/services/word_generator.py:168-188 | cutting the text just before a `Задача:` line cuts the result: no task spans the cut |
| AnalysisText.ParseTasksWithoutTaskLine | backend/services/word_generator.py:179 | without a `Задача:` line there are no tasks, so field lines before the first task are ignored |
| AnalysisText.ParseTaskBlock | backend/services/word_generator.py:173-185 | a `Задача:` line followed by other lines gives one task: it starts with `Не указан`, `Не указан` and `Средний`, and the following lines fill it in |
| AnalysisText.ReadSectionLine | backend/services/word_generator.py:125-133 | a header line (name case-insensitive, contains `#`) is never a stop line; a stop line is a `##` line that is not a header; a kept line is stripped and non-empty |
| AnalysisText.SectionLinesClean | backend/services/word_generator.py:132-133 | every collected line is stripped and non-empty |
| AnalysisText.SectionTextWithoutHeader | backend/services/word_generator.py:126-135 | with no header line the result is `Не найдено` |
| AnalysisText.SectionOfBlock | backend/services/word_generator.py:125-133 | for lines laid out as header, body, then nothing or a `##` non-header line, the collected lines are exactly the stripped non-blank body lines in order |
| AnalysisText.ReadHeadingLine | backend/services/word_generator.py:147 | a line opens a section exactly when, stripped, it starts with `##` |
| AnalysisText.ScanSectionsUnnamed | backend/services/word_generator.py:152 | while no named section is open, lines are ignored |
| AnalysisText.ScanSectionsBody | backend/services/word_generator.py:146-157 | an open section collects the stripped non-blank lines up to the next `##` line, and they are stored joined by newlines under its key |
| AnalysisText.SectionsWithoutHeading | backend/services/word_generator.py:146-159 | text without a `##` line yields no sections |
| AnalysisText.SectionsAppendBlock | backend/services/word_generator.py:146-157 | appending a `##` line and its body adds or replaces one entry: key = the line with every `##` removed and then stripped, value = the body's stripped non-blank lines joined by newlines; an empty key adds nothing |
| WordGenerator.ExtractSection | backend/services/word_generator.py:119-135 | the loop returns SectionText, the specified section reading |
| WordGenerator.SectionLoopBody | backend/services/word_generator.py:125-133 | one iteration: it breaks on a stop line inside the section, enters the section on a header line, and keeps a stripped non-empty line inside the section |
| WordGenerator.SplitAnalysisSections | backend/services/word_generator.py:138-159 | the loop returns Sections, the specified section map |
| WordGenerator.ParseTasksFromAnalysis | backend/services/word_generator.py:162-190 | the loop returns ParseTasks, with one task per `Задача:` line |
| WordGenerator.TaskLoopBody | backend/services/word_generator.py:168-185 | one iteration of the task loop is one TaskStep on the line's reading |
| ExcelGenerator.ExtractSection | backend/services/excel_generator.py:105-121 | returns SectionText, the same function as the Word copy, so both copies agree on every input |
| ExcelGenerator.ParseTasksFromAnalysis | backend/services/excel_generator.py:124-152 | returns ParseTasks, the same as the Word copy |
| ExcelGenerator.TaskRow | backend/services/excel_generator.py:56-62 | a task row has the six header columns |
| ExcelGenerator.TaskSheet | backend/services/excel_generator.py:43-62 | header row, then row r holds the number r, the task's description, deadline, assignee and priority, and the status `Новая`; one row per task |
| ExcelGenerator.ColumnMaxIsLongest | backend/services/excel_generator.py:66-73 | `max_length` is the longest text of the column (numbers and empty cells raise and are skipped), or 0 |
| ExcelGenerator.ColumnWidthFits | backend/services/excel_generator.py:65-75 | a width is between 2 and 50; below the cap it is two more than the longest text and at least two more than every text |
| ExcelGenerator.ColumnWidths | backend/services/excel_generator.py:65-75 | six widths, each `min(max_length + 2, 50)` of its column |
| YandexGpt.FenceStripped | backend/services/yandex_gpt.py:79-87 | the cleaned text is never longer than the reply |
| YandexGpt.CleanReply | backend/services/yandex_gpt.py:79-87 | the step-by-step reassignment of `clean_text` computes FenceStripped |
| YandexGpt.UnfencedReply | backend/services/yandex_gpt.py:79-87 | a stripped reply that neither starts nor ends with a fence reaches the parser as the stripped reply |
| YandexGpt.JsonFencedReply | backend/services/yandex_gpt.py:80-87 | a fence-json / X / fence reply reaches the parser as X stripped, when X does not start with a backtick |
| YandexGpt.Fallback | backend/services/yandex_gpt.py:90-97 | the fallback summary is a prefix of the reply of at most 500 characters (the whole reply when it is short), and the three lists are empty |
| YandexGpt.AnalyzeTranscript | backend/services/yandex_gpt.py:12-101 | missing credentials raise whatever the reply is; a failed request re-raises; a parsed reply is returned as the JSON value it is, whatever its shape; a reply the parser rejects gives the fallback dict instead of raising |
| YandexGpt.GuardBeforeRequest | backend/services/yandex_gpt.py:15-16 | with a missing key or folder id the outcome does not depend on the reply |
| JiraService.ProjectKey | backend/services/jira_service.py:15 | only an unset variable takes `V2A` |
| JiraService.JiraPriority | backend/services/jira_service.py:61-66 | High iff `Высокий`, Low iff `Низкий`, Medium for everything else including a missing priority |
| JiraService.IssueSummary | backend/services/jira_service.py:71 | at most 255 characters, a prefix of the description or of `Задача из Voice2Action`, and the whole of it when short enough |
| JiraService.DueDateRule | backend/services/jira_service.py:78-83 | a due date is set iff the deadline is present, is not `Не указан` and has exactly two dashes, and it is that deadline |
| JiraService.IssueDescription | backend/services/jira_service.py:49-58 | the description starts with the source and creation lines and holds the task's description right after them |
| JiraService.BuildFields | backend/services/jira_service.py:69-83 | project key, type `Task`, a summary of at most 255 characters, a priority among High/Medium/Low, and a due date only by the rule above |
| JiraService.TaskFields | backend/services/jira_service.py:49-83 | the dict built in the loop body, the due date added last, equals BuildFields |
| JiraService.Created | backend/services/jira_service.py:46-104 | never more issues than tasks |
| JiraService.CreatedIssues | backend/services/jira_service.py:88-97 | one issue per successful creation, each URL is `JIRA_URL/browse/key`, each summary at most 255 characters |
| JiraService.CreatedConcat | backend/services/jira_service.py:46-104 | failure isolation: the issues of two batches are those of the first batch followed by those of the second, whatever failed |
| JiraService.CreatedAllSucceed | backend/services/jira_service.py:88-97 | when every creation succeeds, issue k belongs to task k |
| JiraService.JiraOutcome | backend/services/jira_service.py:40-42 | raises NotConfigured iff there is no client; raises NothingCreated iff nothing succeeded; otherwise returns the created issues, at least one |
| JiraService.NoTasksRaises | backend/services/jira_service.py:106-107 | an empty task list raises |
| JiraService.CreateJiraIssues | backend/services/jira_service.py:30-109 | the loop returns JiraOutcome and passes issue_create one fields dict per task, in order, none without a client |
| GdocsService.Authenticate | backend/services/gdocs_service.py:25-57 | an unset or empty variable raises before parsing; invalid JSON raises ValueError; success iff valid JSON and no credentials error |
| GdocsService.UrlRoundTrip | backend/services/gdocs_service.py:88 | both URLs are their prefix, the id and `/edit`, and the id reads back from the URL |
| GdocsService.SheetRow | backend/services/gdocs_service.py:119-124 | a task row has the four header columns |
| GdocsService.SheetRowRoundTrip | backend/services/gdocs_service.py:118-124 | a row loses nothing of a task with all keys; missing keys give `''`, `Не указан`, `Не указан`, `Medium` in column order |
| GdocsService.SheetValues | backend/services/gdocs_service.py:115-124 | header row `Задача, Дедлайн, Ответственный, Приоритет`, then one row per task in order |
| GdocsService.CreateDoc | backend/services/gdocs_service.py:59-98 | the document URL iff creation and the later calls succeeded, otherwise the exception raised |
| GdocsService.CreateSheet | backend/services/gdocs_service.py:100-150 | the sheet URL iff creation and writing succeeded; once the sheet is created, the table written is the values table |
| Database.RowOf | backend/database.py:148-152 | a row found has the id and is in the table; None only when no row has the id |
| Database.TaskRows | backend/database.py:121-130 | one inserted row per task |
| Database.TaskRowsAt | backend/database.py:122-130 | task k goes into row k, with id `next + k`, under the job, its missing keys read as `""`, `Не указан`, `Не указан`, `Medium` |
| Database.Lookup | backend/database.py:140-181 | None iff no jobs row has the id; otherwise the job's row, with an analysis entry iff an analysis row exists |
| Database.Newest | backend/database.py:190-193 | `ORDER BY created_at DESC LIMIT n`: at most n rows, newest first, all rows for a negative limit |
| Database.ListingOrder | backend/database.py:183-210 | get_all_jobs gives at most `limit` jobs, newest first, and `has_analysis` exactly for jobs with an analysis row |
| Database.CountStatusPartition | backend/database.py:240-245 | the four status counts add up to the number of rows |
| Database.StatsPartition | backend/database.py:240-245 | `by_status` lists only statuses that occur, each with a positive count, and the counts sum to `total_jobs` |
| Database.JobsWithout | backend/database.py:221 | the delete keeps only rows of the table with other ids |
| Database.TasksWithoutRows | backend/database.py:219 | the remaining task rows are rows of the table, none of them the job's |
| Database.TasksOfTaskRows | backend/database.py:122-130 | the rows save_analysis inserts all belong to its job |
| Database.RowOfWithout | backend/database.py:221 | after the delete, the id has no row and every other id finds its old row |
| Database.TasksOfWithout | backend/database.py:219 | after the delete, the job has no task rows and every other job keeps its own |
| Database.InsertJobEffect | backend/database.py:56-73 | create_job on a new id keeps the tables valid; get_job then finds a `processing` row without a transcript; other ids read as before |
| Database.SetTranscriptEffect | backend/database.py:81-84 | transcript set, `transcript_chars` its length, status `transcribed`; other ids read as before; an unknown id changes nothing |
| Database.SetStatusFinds | backend/main.py:133-134 | after the status UPDATE, get_job finds that status |
| Database.SaveAnalysisRows | backend/database.py:94-137 | when save_analysis commits: one analysis row per job holding the data's values with `""`/`[]` defaults, replacing any earlier one, and the task rows appended after the job's earlier rows; when it raises: no table changes |
| Database.SaveAnalysisLookup | backend/database.py:94-137 | after a committed save_analysis, get_job finds a stored job `completed`, its analysis stored, with an analysis entry; after a rolled-back one the job reads exactly as before; an unknown id stays unknown |
| Database.SaveAnalysisOthers | backend/database.py:101-130 | save_analysis leaves what get_job returns for every other id unchanged |
| Database.SaveAnalysisValid | backend/database.py:122-130 | the AUTOINCREMENT ids of the new rows follow the old ones, so the tables stay valid |
| Database.SaveAnalysisTwice | backend/database.py:110-130 | a second call keeps one analysis row and appends the task rows again; an analysis that is rolled back changes nothing either time |
| Database.TypedAnalysisSaves | backend/database.py:101-130 | every analysis of the typed shape (strings, and a list of dicts of strings) commits, with one task row per task |
| Database.SaveRejects | backend/database.py:94-137 | save_analysis rolls back on a list, a null or a string task list, a string among the tasks, a list as summary, or an `int` wider than 64 bits as summary or task value; a null summary, a float summary or an empty string as task list commits |
| Database.DeleteJobEffect | backend/database.py:219-221 | the job reads as absent, its analysis and task rows are gone, and every other id reads as before |
| Database.DeleteJobValid | backend/database.py:219-221 | the delete keeps the primary key unique and the row ids increasing |
| Database.JobsWithoutOrdered | backend/database.py:221 | removing a job's rows keeps the ids unique |
| Database.TasksWithoutOrdered | backend/database.py:219 | removing a job's task rows keeps the row ids increasing |
| Database.RowOfFinds | backend/database.py:148-152 | every stored row is found by its id |
| Database.TranscriptDB.constructor | backend/database.py:16-53 | three empty tables |
| Database.TranscriptDB.CreateJob | backend/database.py:56-73 | returns true iff the id is new; on true it inserts the job's row, otherwise nothing changes |
| Database.TranscriptDB.UpdateTranscript | backend/database.py:75-92 | returns true and applies the transcript UPDATE |
| Database.TranscriptDB.MarkFailed | backend/main.py:130-135 | sets status `failed` on the job's row |
| Database.TranscriptDB.SaveAnalysis | backend/database.py:94-138 | returns true iff the data is a dict with a bindable summary (None, a bool, a float, a str or an `int` within 64 bits) and its tasks iterate to dicts with bindable values; then the UPDATE, the INSERT OR REPLACE and one INSERT per task are committed (AfterSave), otherwise no table changes |
| Database.TranscriptDB.GetJob | backend/database.py:140-181 | returns Lookup of the current tables |
| Database.TranscriptDB.GetAllJobs | backend/database.py:183-210 | the query and the loop over its rows return Listing |
| Database.DeleteJobResult | backend/database.py:212-226 | delete_job returns true whatever its DELETEs matched |
| Database.TranscriptDB.DeleteJob | backend/database.py:212-229 | the three DELETEs, returning true whether or not the id existed |
| Database.TranscriptDB.GetStatistics | backend/database.py:231-245 | returns `total_jobs` and `by_status`, whose counts add up to the total |
| Main.SafeFilename | backend/main.py:345 | the saved name starts with the job id and `_`, keeps the file name's length, and holds no space after the prefix |
| Main.NewEntry | backend/main.py:353-361 | a new upload: the id, status `processing`, progress 0, not complete, its file path, no error, no results |
| Main.UploadReplyUrls | backend/main.py:367-375 | the reply's four URLs are distinct and the job id reads back from them |
| Main.PipelineSucceeds | backend/main.py:85-119 | for a dict analysis the success path ends `completed`, complete, at 100, with the transcript, its length, the analysis and the results (the dict's values, `""`/`[]` for missing keys, a null kept as null) |
| Main.PipelineFails | backend/main.py:96-128 | a failing stage gives `failed`, complete, with its message as the error; progress stays at 0, 50 or 75 and earlier results are kept; an analysis that is not a dict is stored, then fails the job at 50 with `'<type>' object has no attribute 'get'` |
| Main.PipelineConsistent | backend/main.py:77-128 | the pipeline keeps an entry consistent and always leaves `processing` |
| Main.PipelineStored | backend/main.py:81-135 | afterwards the stored job exists; it is `failed` exactly when the in-memory job failed; it is `completed` only when the in-memory job is; a job completed in memory is `completed` in the store exactly when save_analysis committed, and `transcribed` otherwise |
| Main.PipelineStoreLags | backend/main.py:101-119 | a dict with a null `tasks`: the job is `completed` in memory while the store still says `transcribed` |
| Main.StatusOf | backend/main.py:382-402 | 404 iff the id is neither in memory nor stored; the in-memory entry is shown without its file path; a stored job shows progress 100 and complete exactly when `completed` or `failed` |
| Main.Exports | backend/main.py:423-430 | only `google_docs` produces an entry; other target names are ignored |
| Main.ExportAsWritten | backend/main.py:405-421 | the code as written: 404 for an unknown id, 400 when not complete, and success only for a complete job with no truthy error and with results |
| Main.ExportFailedJobPasses | backend/main.py:417-418 | a job whose publishing raised an exception with an empty message is `failed`, yet passes the gate as written |
| Main.ExportReply | backend/main.py:405-437 | export with the failed-job gate on the status: 404 for an unknown id, and an answer only for `google_docs` |
| Main.ExportOnlyCompleted | backend/main.py:417-421 | with the status gate, a consistent job exports iff it is `completed` |
| Main.PySlice | backend/main.py:209 | a slice is never longer than the list |
| Main.PySliceWindow | backend/main.py:209 | `xs[start:start + count]` is the run of at most `count` elements from `start` |
| Main.ListAsWritten | backend/main.py:199-209 | the code as written: never more than `limit` jobs |
| Main.ListAsWrittenEmptyPage | backend/main.py:199-209 | as written, an offset of at least `limit` lists nothing however many jobs are stored |
| Main.ListAsWrittenSkipsSecond | backend/main.py:199-209 | two stored jobs, limit 1, offset 1: as written the reply is empty, while the intended page holds one job |
| Main.JobsPage | backend/main.py:196-210 | the page of the newest-first list of all jobs, never more than `limit` |
| Main.ListJobsPage | backend/main.py:209 | the intended page holds the jobs at newest-first positions `offset`, `offset + 1`, ..., as many as exist up to `limit`, with their analysis flags |
| Main.Snippet | backend/main.py:320-321 | the whole text when at most 200 characters, otherwise its first 200 characters and `...` |
| Main.Matching | backend/main.py:307-313 | only stored rows whose transcript matches the query |
| Main.MatchingComplete | backend/main.py:307-313 | no matching row is left out |
| Main.Limited | backend/main.py:313 | SQLite's LIMIT keeps a prefix of `limit` rows, all of them for a negative limit |
| Main.SearchHitsMatch | backend/main.py:307-323 | at most `limit` hits, each a stored job whose transcript contains the query, ASCII letters compared without case |
| Main.DeleteReply | backend/main.py:280-286 | the reply is success iff the store reported a delete |
| Main.DeleteAsWritten | backend/main.py:277-286 | as written: a success removes the id from memory and from the store |
| Main.DeleteUnknownReportsDeleted | backend/main.py:280-286 | as written, an id found neither in memory nor in the store is answered `Job <id> deleted`, where the intended reply is 404 |
| Main.DeleteOutcome | backend/main.py:277-286 | intended delete: 404 iff the id is neither in memory nor stored |
| Main.DeleteJobRemoves | backend/main.py:277-286 | afterwards the id is gone from memory and store, and the reply is success iff it existed somewhere |
| Main.KeepsConsistent | backend/main.py:56 | storing a consistent entry under its id keeps every entry of the map consistent |
| Main.Backend.constructor | backend/main.py:56 | an empty `jobs` map and empty tables |
| Main.Backend.ProcessAudio | backend/main.py:336-379 | when the file write succeeds, stores the new entry under the id with its path (the temporary directory joined with `<id>_<name with spaces made _>`) and returns the reply; when opening, reading or writing raises, stores nothing and answers 500 with the exception's message |
| Main.Backend.ProcessPipeline | backend/main.py:77-135 | for any transcription outcome and any JSON analysis, the entry becomes PipelineEntry, the store becomes PipelineTables (save_analysis committed or rolled back), and the invariant holds |
| Main.Backend.RunStages | backend/main.py:83-135 | transcription, then the rest for any JSON analysis, or the failure path |
| Main.Backend.RunAnalysis | backend/main.py:96-135 | save_analysis (committed or rolled back), then for a dict the analysis and publishing, otherwise the AttributeError's failure path |
| Main.Backend.RunPublish | backend/main.py:112-135 | completion, or the failure path when publishing raised |
| Main.Backend.RecordTranscript | backend/main.py:89-92 | transcript, its length and progress 50 stored in the entry |
| Main.Backend.RecordAnalysis | backend/main.py:102-110 | for a dict analysis: the analysis, the results built with `.get` and progress 75 stored in the entry |
| Main.Backend.RecordCompletion | backend/main.py:116-119 | `completed`, progress 100, complete |
| Main.Backend.FailJob | backend/main.py:124-135 | `failed`, complete, error message; the store's status UPDATE |
| Main.Backend.GetStatus | backend/main.py:382-402 | returns StatusOf |
| Main.Backend.ExportResults | backend/main.py:405-441 | returns ExportReply (the corrected gate, see Findings) |
| Main.Backend.ListJobs | backend/main.py:196-210 | returns JobsPage (the corrected page, see Findings) |
| Main.Backend.SearchTranscripts | backend/main.py:299-333 | one hit with its snippet per fetched row, and the count of hits |
| Main.Backend.DeleteJob | backend/main.py:277-286 | answers DeleteOutcome (see Findings), removes the id from memory, and runs the store's delete when the id was known |
| Upload.Clamp | frontend/js/upload.js:362 | the clamped value lies in [0, 100]; a value inside is kept; values below and above go to 0 and 100 |
| Upload.ProgressedIsMax | frontend/js/upload.js:358-368 | after any series of updates the bar shows the largest of its start and the clamped updates, never less than before, and within [0, 100] |
| Upload.AdvanceOrderFree | frontend/js/upload.js:363 | repeating an update changes nothing, and updates commute |
| Upload.DeriveProgress | frontend/js/upload.js:391-393 | the table's value for a known status, otherwise the bar's current value |
| Upload.StatusTextStages | frontend/js/upload.js:258-266 | `processing` maps to the four stage texts by the thresholds 30, 70 and 90; any other status is shown as it is |
| Upload.ReportedProgress | frontend/js/upload.js:239-242 | 100 for `completed`, then a numeric progress, then the table, then the current value |
| Upload.PollOutcome | frontend/js/upload.js:243-255 | done iff `completed` (returning the job), throws iff `failed` (with the error or `Серверная ошибка`), otherwise polling goes on |
| Upload.ExtensionOfDotted | frontend/js/upload.js:104 | the extension of `stem.ext` is `.` plus `ext` in lower case |
| Upload.Check | frontend/js/upload.js:97-114 | no file iff none given; accepted iff the MIME type or the extension is listed and the size is at most 25 MiB; too large only above 25 MiB |
| Upload.Mp3NameAccepted | frontend/js/upload.js:102-114 | a file of at most 25 MiB named `stem.mp3` in any case passes, whatever its MIME type |
| Upload.UploadPage.constructor | frontend/js/upload.js:4-6 | no file, no job, an empty bar |
| Upload.UploadPage.UpdateProgress | frontend/js/upload.js:358-368 | the bar moves to the clamped value unless it is already further; a non-empty text replaces the caption |
| Upload.UploadPage.ResetForm | frontend/js/upload.js:59-74 | no file, no job, bar at 0, caption `Ждём загрузку аудио...` |
| Upload.UploadPage.HandleFileSelect | frontend/js/upload.js:97-132 | the outcome is Check; with a file the bar is emptied; the file is kept only when accepted |
| Upload.UploadPage.HandleJobResponse | frontend/js/upload.js:237-256 | the outcome is PollOutcome; the bar advances to the reported progress and the caption is the status text |
| Upload.CompletedFillsBar | frontend/js/upload.js:237-246 | a reply never moves the bar back; a completed reply fills it; an unknown status without a number leaves it |
| Upload.MissingPayload | frontend/js/upload.js:396 | a falsy payload gives `HTTP <code>` |
| Upload.DetailOrder | frontend/js/upload.js:397 | the detail is taken from `detail`, then `message`, then `error`, each considered only when the earlier ones are missing or null |
| Upload.EmptyDetailHidesMessage | frontend/js/upload.js:397-405 | an empty `detail` stops `??`, so the payload is shown as JSON even when `message` holds text |
| Upload.ItemMessage | frontend/js/upload.js:409 | reading `item.msg` throws exactly on a null element; otherwise the element's truthy `msg`, else its truthy `message`, else its JSON |
| Upload.ItemMessagesAll | frontend/js/upload.js:407-411 | the map throws exactly when some element is null; otherwise message k is element k's |
| Upload.ItemMessagesFirstNull | frontend/js/upload.js:409 | every throw of the map is the TypeError of reading `msg` on null |
| Upload.ArrayDetail | frontend/js/upload.js:407-411 | an array detail with a null element throws a TypeError instead of giving a message; otherwise it becomes its items' messages joined by `; `, an item's textual `msg` first |

## Left out

- Timestamps are not modelled: `created_at`, `completed_at`, the date lines of the generated documents, and the Jira creation time (an input string, the same for every task of one call). The `jobs` table is kept in insertion order, which stands for `created_at` order.
- `asyncio.create_task` scheduling is not modelled. The pipeline runs as one sequential call right after the upload, so a status read in the middle of a run is not modelled either.
- External calls become inputs: speech-to-text, the YandexGPT request, Jira's `issue_create`, the Google API calls, `json.loads`, `JSON.stringify` and `String()`. `add_to_google_docs`, which `backend/main.py` imports, is not defined in `backend/services/gdocs_service.py`. That import fails, so the module does not load as given. The publishing step is only its outcome.
- JSON numbers are an `int` (written without fraction or exponent) or a `float`, as Python's parser reads them. The non-standard `NaN` and `Infinity` literals that parser also accepts are not modelled.
- Database: SQLite's TEXT affinity stores a number or bool bound into a text column as its text. The model keeps the bound JSON value.
- JiraService.CreateJiraIssues, JiraService.Created: tasks are typed dicts whose values are strings or missing. A null or non-string `description` makes `[:255]` at backend/services/jira_service.py:71 raise, so that task is skipped. This is not modelled, because no modelled code passes this service untyped tasks.
- GdocsService.SheetValues: tasks are typed dicts whose values are strings or missing. A task that is not a dict makes `task.get` raise, which is not modelled.
- Main.Backend.ProcessAudio: requires an id not already in `jobs`. A `uuid4` collision is not modelled. The file's bytes are not modelled: only the write's outcome (an input) and the path are kept.
- Main.Backend.ExportResults, Main.Backend.ListJobs, Main.Backend.DeleteJob: follow the corrected definitions of the Findings table. The code as written is modelled by ExportAsWritten, ListAsWritten and DeleteAsWritten.
- Main.Like: SQLite's LIKE is a substring test that folds ASCII letters only. The wildcards `%` and `_` inside the query itself are not modelled.
- Text.Lower: folds Latin and Cyrillic capitals only. Other Unicode case mappings are not modelled.
- Writing `.docx` and `.xlsx` files is not modelled: document styling, the Summary and full-text sheets, uuid file names and `/tmp`. The Excel task-sheet rows and column widths are modelled.
- The root and health endpoints, `get_job_details`, `get_job_transcript`, `get_job_analysis` and the `get_statistics` endpoint wrapper are not modelled. They only read the store.
- Database.TranscriptDB.GetStatistics: `last_7_days` and `avg_transcript_length` are not modelled (time and floating point).
- The store's connection failures are not modelled: a failed connection returns False or None. The primary-key failure of `create_job` and the rollback of `save_analysis` on a value it cannot bind or iterate are modelled.
- `pollJobStatus` and its sleeps are not modelled, nor are `analyzeAudio`'s network call, `showResults`, `showStatus` and the DOM updates of the page.
- Upload.JobReply: a `progress` that is not a number, or a `status` or `error` that is not a string, is modelled as missing. NaN and the infinities are not modelled.
- ExcelGenerator.ColumnMaxIsLongest: only text cells count. For a number or an empty cell, `len(cell.value)` raises and the source swallows the exception.
- The Telegram bot, the older `js/upload.js`, the transcription and speech-to-text services, `analysis.py` and `check_key.py` are not part of this model.

## Findings

| source | as written | input that shows it | evidently intended | confidence | as-written member | corrected member |
|---|---|---|---|---|---|---|
| backend/main.py:199-209 | `list_jobs` fetches only the newest `limit` rows, then slices `[offset:offset + limit]` out of them | two stored jobs, `limit=1`, `offset=1`: the reply is empty although a second job exists | the page at `offset` of all jobs, newest first | high; not executed | Main.ListAsWrittenSkipsSecond | Main.ListJobsPage |
| backend/main.py:280-286 | the 404 branch depends on `db.delete_job`, which returns True for every id (backend/database.py:219-226) | `DELETE /api/jobs/x` for an id stored nowhere answers `Job x deleted` | 404 for an id unknown in memory and in the store | high; not executed | Main.DeleteUnknownReportsDeleted | Main.DeleteJobRemoves |
| backend/main.py:417-418 | the failed-job gate tests the truthiness of `job["error"]`, which is `str(e)` | publishing raises an exception with an empty message: the job is `failed`, complete and has results, and export succeeds | refuse export of a failed job | medium; not executed | Main.ExportFailedJobPasses | Main.ExportOnlyCompleted |
