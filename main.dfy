/**
 * The HTTP backend of backend/main.py: the in-memory `jobs` map that
 * process_audio fills and process_pipeline advances, and the endpoints that
 * read it and the job store. The pipeline runs as one sequential call right
 * after the upload; the outcome of each external stage (transcription,
 * analysis, publishing to Google Docs) is an input. The upload's uuid and
 * the temporary directory are inputs too; timestamps are left out.
 */
module Main {
  import opened Wrappers
  import opened Text
  import opened JsonData
  import opened Records
  import opened Seqs
  import Database

  /** The values the in-memory `status` takes. */
  datatype JobState = Processing | Completed | Failed

  /** The `results` dict the pipeline stores once the analysis is in; its values are whatever the analysis held. */
  datatype Results = Results(
    transcript: string,
    summary: Json,
    tasks: Json,
    keyPoints: Json,
    decisions: Json)

  /** One entry of the `jobs` map; an absent key is `None`. */
  datatype JobEntry = JobEntry(
    id: string,
    filename: string,
    status: JobState,
    progress: nat,
    complete: bool,
    filePath: Option<string>,
    transcript: Option<string>,
    transcriptChars: Option<nat>,
    analysis: Option<Json>,
    results: Option<Results>,
    error: Option<string>)

  /** An HTTPException: status code and detail. */
  datatype HttpError = HttpError(code: nat, detail: string)

  /**
   * What the status, progress, completion and error of an entry may be:
   * progress is one of the pipeline's four values; a processing job is not
   * complete and has no error; a completed job is complete at 100 with
   * results and no error; a failed job is complete with an error.
   */
  predicate Consistent(e: JobEntry) {
    e.progress in {0, 50, 75, 100}
    && (e.status == Processing ==> !e.complete && e.error.None?)
    && (e.status == Completed ==> e.complete && e.progress == 100 && e.error.None? && e.results.Some?)
    && (e.status == Failed ==> e.complete && e.error.Some?)
  }

  // ---------------------------------------------------------------------
  // process_audio

  /** os.path.join on a POSIX path. */
  function PathJoin(dir: string, name: string): string {
    if dir == [] || EndsWith(dir, "/") then dir + name else dir + "/" + name
  }

  /** The name the upload is saved under: the job id, `_`, the file name with spaces made underscores. */
  function SafeFilename(jobId: string, filename: string): (r: string)
    ensures StartsWith(r, jobId + "_") && |r| == |jobId| + 1 + |filename|
    ensures ' ' !in r[|jobId| + 1..]
  {
    var r := jobId + "_" + ReplaceChar(filename, ' ', '_');
    assert r[|jobId| + 1..] == ReplaceChar(filename, ' ', '_');
    r
  }

  /** The entry process_audio stores for a new upload. */
  function NewEntry(jobId: string, filename: string, filePath: string): (e: JobEntry)
    ensures e.id == jobId && e.status == Processing && e.progress == 0 && !e.complete
    ensures e.filePath == Some(filePath) && e.error.None? && e.results.None?
    ensures Consistent(e)
  {
    JobEntry(jobId, filename, Processing, 0, false, Some(filePath), None, None, None, None, None)
  }

  /** The JSON process_audio returns (its `created_at` left out). */
  datatype UploadResponse = UploadResponse(
    jobId: string,
    message: string,
    statusUrl: string,
    transcriptUrl: string,
    analysisUrl: string,
    monitorUrl: string)

  function UploadReply(jobId: string): UploadResponse {
    UploadResponse(jobId, "Processing started", "/api/jobs/" + jobId, "/api/jobs/" + jobId + "/transcript",
      "/api/jobs/" + jobId + "/analysis", "/api/status/" + jobId)
  }

  /** The four URLs of the reply are distinct, and each gives the job id back. */
  lemma UploadReplyUrls(jobId: string)
    ensures var r := UploadReply(jobId);
      r.statusUrl[|"/api/jobs/"|..] == jobId && r.monitorUrl[|"/api/status/"|..] == jobId
      && r.transcriptUrl[|"/api/jobs/"|..|r.transcriptUrl| - |"/transcript"|] == jobId
      && r.analysisUrl[|"/api/jobs/"|..|r.analysisUrl| - |"/analysis"|] == jobId
    ensures var r := UploadReply(jobId);
      r.statusUrl != r.transcriptUrl && r.statusUrl != r.analysisUrl && r.transcriptUrl != r.analysisUrl
      && r.monitorUrl != r.statusUrl
  {
    var r := UploadReply(jobId);
    assert r.transcriptUrl[|"/api/jobs/"|..|r.transcriptUrl| - |"/transcript"|] == jobId;
    assert r.analysisUrl[|"/api/jobs/"|..|r.analysisUrl| - |"/analysis"|] == jobId;
    assert r.monitorUrl[5] == 's' && r.statusUrl[5] == 'j';
    assert r.transcriptUrl[|r.transcriptUrl| - 1] == 't' && r.analysisUrl[|r.analysisUrl| - 1] == 's';
  }

  // ---------------------------------------------------------------------
  // process_pipeline

  /** The entry after a stage raised `message`; progress, transcript and results stay as they were. */
  function Fail(e: JobEntry, message: string): JobEntry {
    e.(status := Failed, error := Some(message), complete := true)
  }

  /** The `results` dict: the transcript and the analysis dict's values, a missing key read as "" or []. */
  function ResultsOf(text: string, a: map<string, Json>): Results {
    Results(text, Get(a, "summary", JStr("")), Get(a, "tasks", JArr([])), Get(a, "key_points", JArr([])),
      Get(a, "decisions", JArr([])))
  }

  /** The AttributeError `analysis_result.get` raises when the analysis is not a dict. */
  function NoGet(a: Json): string {
    "'" + TypeName(a) + "' object has no attribute 'get'"
  }

  /** The entry once the transcription stage returned `text`. */
  function Transcribed(e: JobEntry, text: string): JobEntry {
    e.(transcript := Some(text), transcriptChars := Some(|text|), progress := 50)
  }

  /** The entry once the analysis stage returned the dict `a`. */
  function Analysed(e: JobEntry, text: string, a: Json): JobEntry {
    e.(analysis := Some(a), results := Some(ResultsOf(text, FieldsOf(a))), progress := 75)
  }

  /** The entry after the last stage. */
  function Finished(e: JobEntry): JobEntry {
    e.(status := Completed, progress := 100, complete := true)
  }

  /** The entry after the publishing step of an analysed upload. */
  function PublishStage(e: JobEntry, published: Option<string>): JobEntry {
    match published
    case Some(m) => Fail(e, m)
    case None => Finished(e)
  }

  /**
   * The entry after the analysis stage and what follows it, for an upload
   * transcribed as `text`. An analysis that is not a dict is stored in the
   * entry, then building `results` raises.
   */
  function AnalysisStage(e: JobEntry, text: string, analysed: Result<Json, string>, published: Option<string>): JobEntry {
    match analysed
    case Err(m) => Fail(e, m)
    case Ok(a) =>
      if a.JObj? then PublishStage(Analysed(e, text, a), published)
      else Fail(e.(analysis := Some(a)), NoGet(a))
  }

  /**
   * The entry process_pipeline leaves: each stage runs only when the one
   * before it returned, and the first that raises fails the job.
   */
  function PipelineEntry(e: JobEntry, transcribed: Result<string, string>, analysed: Result<Json, string>,
                         published: Option<string>): JobEntry
  {
    match transcribed
    case Err(m) => Fail(e, m)
    case Ok(text) => AnalysisStage(Transcribed(e, text), text, analysed, published)
  }

  /**
   * The success path: progress ends at 100, status `completed`, complete,
   * with the transcript, its length and the results of the analysis.
   */
  lemma PipelineSucceeds(e: JobEntry, text: string, a: map<string, Json>)
    requires Consistent(e) && e.status == Processing
    ensures var r := PipelineEntry(e, Ok(text), Ok(JObj(a)), None);
      r.status == Completed && r.progress == 100 && r.complete && r.error.None?
      && r.transcript == Some(text) && r.transcriptChars == Some(|text|)
      && r.analysis == Some(JObj(a)) && r.results == Some(ResultsOf(text, a))
  {
  }

  /**
   * A failing stage: status `failed`, complete, the stage's message as
   * error; progress stays at the value the last finished stage set (0, 50
   * or 75) and what earlier stages stored is kept. An analysis that is not
   * a dict fails the job at 50 with the AttributeError.
   */
  lemma PipelineFails(e: JobEntry, transcribed: Result<string, string>, analysed: Result<Json, string>,
                      published: Option<string>)
    requires Consistent(e) && e.status == Processing && e.progress == 0
    requires transcribed.Err? || analysed.Err? || !analysed.value.JObj? || published.Some?
    ensures var r := PipelineEntry(e, transcribed, analysed, published);
      r.status == Failed && r.complete && r.id == e.id && r.filePath == e.filePath
    ensures transcribed.Err? ==> PipelineEntry(e, transcribed, analysed, published) == Fail(e, transcribed.error)
    ensures transcribed.Ok? && analysed.Err? ==> (var r := PipelineEntry(e, transcribed, analysed, published);
      r.error == Some(analysed.error) && r.progress == 50 && r.transcript == Some(transcribed.value) && r.results == e.results)
    ensures transcribed.Ok? && analysed.Ok? && !analysed.value.JObj? ==> (var r := PipelineEntry(e, transcribed, analysed, published);
      r.error == Some(NoGet(analysed.value)) && r.progress == 50 && r.analysis == Some(analysed.value) && r.results == e.results)
    ensures transcribed.Ok? && analysed.Ok? && analysed.value.JObj? && published.Some? ==>
      (var r := PipelineEntry(e, transcribed, analysed, published);
      r.error == published && r.progress == 75 && r.results == Some(ResultsOf(transcribed.value, analysed.value.fields)))
  {
  }

  /** process_pipeline keeps an upload's entry consistent whatever its stages do. */
  lemma PipelineConsistent(e: JobEntry, transcribed: Result<string, string>, analysed: Result<Json, string>,
                           published: Option<string>)
    requires Consistent(e) && e.status == Processing
    ensures Consistent(PipelineEntry(e, transcribed, analysed, published))
    ensures PipelineEntry(e, transcribed, analysed, published).status != Processing
  {
  }

  /** The raw status UPDATE the failure path runs. */
  function MarkFailed(t: Database.Tables, jobId: string): Database.Tables {
    t.(jobs := Database.SetStatus(t.jobs, jobId, Database.Failed))
  }

  /** The job store after the publishing step. */
  function PublishTables(t: Database.Tables, jobId: string, published: Option<string>): Database.Tables {
    if published.Some? then MarkFailed(t, jobId) else t
  }

  /** The job store after the analysis stage and what follows it. */
  function AnalysisTables(t: Database.Tables, jobId: string, analysed: Result<Json, string>,
                          published: Option<string>): Database.Tables
  {
    match analysed
    case Err(_) => MarkFailed(t, jobId)
    case Ok(a) =>
      var saved := Database.SaveTables(t, jobId, a, "");
      if a.JObj? then PublishTables(saved, jobId, published) else MarkFailed(saved, jobId)
  }

  /** The job store after the stages that follow the INSERT of the job. */
  function StageTables(t: Database.Tables, jobId: string, transcribed: Result<string, string>,
                       analysed: Result<Json, string>, published: Option<string>): Database.Tables
  {
    match transcribed
    case Err(_) => MarkFailed(t, jobId)
    case Ok(text) => AnalysisTables(t.(jobs := Database.SetTranscript(t.jobs, jobId, text)), jobId, analysed, published)
  }

  /** The job store after process_pipeline: the job is inserted unless a row with its id exists, then the stages run. */
  function PipelineTables(t: Database.Tables, jobId: string, filename: string, transcribed: Result<string, string>,
                          analysed: Result<Json, string>, published: Option<string>): Database.Tables
  {
    var t0 := if Database.RowOf(t.jobs, jobId).None? then Database.InsertJob(t, jobId, filename) else t;
    StageTables(t0, jobId, transcribed, analysed, published)
  }

  /**
   * After process_pipeline the stored job exists and a failure reads
   * `failed` in memory exactly when it does in the store. A job completed
   * in memory reads `completed` in the store exactly when save_analysis
   * committed its analysis; otherwise the store still says `transcribed`.
   */
  lemma PipelineStored(t: Database.Tables, e: JobEntry, filename: string, transcribed: Result<string, string>,
                       analysed: Result<Json, string>, published: Option<string>)
    requires Consistent(e) && e.status == Processing
    ensures var job := Database.Lookup(PipelineTables(t, e.id, filename, transcribed, analysed, published), e.id);
      job.Some? && (job.value.row.status == Database.Failed <==> PipelineEntry(e, transcribed, analysed, published).status == Failed)
    ensures var job := Database.Lookup(PipelineTables(t, e.id, filename, transcribed, analysed, published), e.id);
      job.Some? && job.value.row.status == Database.Completed ==> PipelineEntry(e, transcribed, analysed, published).status == Completed
    ensures var job := Database.Lookup(PipelineTables(t, e.id, filename, transcribed, analysed, published), e.id);
      PipelineEntry(e, transcribed, analysed, published).status == Completed ==>
        analysed.Ok? && job.Some? && (job.value.row.status == Database.Completed <==> Database.Saves(analysed.value))
        && (job.value.row.status == Database.Completed || job.value.row.status == Database.Transcribed)
  {
    var jobId := e.id;
    var t0 := if Database.RowOf(t.jobs, jobId).None? then Database.InsertJob(t, jobId, filename) else t;
    Database.RowOfAppend(t.jobs, Database.NewJobRow(jobId, filename), jobId);
    assert Database.RowOf(t0.jobs, jobId).Some?;
    match transcribed
    case Err(_) =>
      Database.SetStatusFinds(t0, jobId, Database.Failed);
    case Ok(text) =>
      var t1 := t0.(jobs := Database.SetTranscript(t0.jobs, jobId, text));
      Database.SetTranscriptEffect(t0, jobId, text, jobId);
      match analysed
      case Err(_) =>
        Database.SetStatusFinds(t1, jobId, Database.Failed);
      case Ok(a) =>
        var t2 := Database.SaveTables(t1, jobId, a, "");
        Database.SaveAnalysisLookup(t1, jobId, a, "");
        if published.Some? || !a.JObj? {
          Database.SetStatusFinds(t2, jobId, Database.Failed);
        }
  }

  /**
   * A dict whose `tasks` is null: save_analysis rolls back, yet the job
   * completes in memory, so memory says `completed` and the store
   * `transcribed`.
   */
  lemma PipelineStoreLags(e: JobEntry, filename: string, text: string)
    requires Consistent(e) && e.status == Processing
    ensures var a := JObj(map["summary" := JStr(text), "tasks" := JNull]);
      var job := Database.Lookup(PipelineTables(Database.EmptyTables, e.id, filename, Ok(text), Ok(a), None), e.id);
      PipelineEntry(e, Ok(text), Ok(a), None).status == Completed && job.Some? && job.value.row.status == Database.Transcribed
  {
    var a := JObj(map["summary" := JStr(text), "tasks" := JNull]);
    assert !Database.Saves(a) by {
      assert Database.TaskItems(Get(a.fields, "tasks", JArr([]))).None?;
    }
    PipelineStored(Database.EmptyTables, e, filename, Ok(text), Ok(a), None);
  }

  // ---------------------------------------------------------------------
  // get_status

  /** The reply of get_status: the in-memory entry without its file path, or the stored job's fields. */
  datatype StatusView =
    | Live(entry: JobEntry)
    | Stored(jobId: string, status: Database.DbStatus, progress: nat, complete: bool, filename: string)

  /** get_status. */
  function StatusOf(jobs: map<string, JobEntry>, t: Database.Tables, jobId: string): (r: Result<StatusView, HttpError>)
    ensures r.Err? <==> jobId !in jobs && Database.Lookup(t, jobId).None?
    ensures r.Err? ==> r.error.code == 404
    ensures r.Ok? && r.value.Live? ==> r.value.entry.filePath.None?
    ensures jobId in jobs ==> r.Ok? && r.value.Live? && r.value.entry == jobs[jobId].(filePath := None)
    ensures r.Ok? && r.value.Stored? ==> (jobId !in jobs &&
      (r.value.complete <==> r.value.status in {Database.Completed, Database.Failed}) &&
      r.value.progress == (if r.value.complete then 100 else 0))
  {
    if jobId !in jobs then
      match Database.Lookup(t, jobId)
      case Some(job) =>
        var done := job.row.status in {Database.Completed, Database.Failed};
        Ok(Stored(jobId, job.row.status, if done then 100 else 0, done, job.row.filename))
      case None => Err(HttpError(404, "Job not found"))
    else
      Ok(Live(jobs[jobId].(filePath := None)))
  }

  // ---------------------------------------------------------------------
  // export_results

  /** The `exports` entry for Google Docs: the document was written during processing. */
  datatype ExportEntry = AlreadyExported(message: string)

  const GoogleDocs := "google_docs"

  /** The export entries: only `google_docs` produces one; other names are ignored. */
  function Exports(targets: seq<string>): (r: map<string, ExportEntry>)
    ensures r.Keys == if GoogleDocs in targets then {GoogleDocs} else {}
  {
    if GoogleDocs in targets then map[GoogleDocs := AlreadyExported("Already exported during processing")] else map[]
  }

  /** Python truthiness of `job.get("error")`: a missing or empty message is falsy. */
  predicate HasError(e: JobEntry) {
    e.error.Some? && e.error.value != ""
  }

  /** export_results as written: the gate tests the truthiness of the error message. */
  function ExportAsWritten(jobs: map<string, JobEntry>, jobId: string, targets: seq<string>)
    : (r: Result<map<string, ExportEntry>, HttpError>)
    ensures jobId !in jobs <==> r == Err(HttpError(404, "Job not found"))
    ensures r.Ok? ==> jobs[jobId].complete && !HasError(jobs[jobId]) && jobs[jobId].results.Some?
    ensures r.Ok? ==> r.value == Exports(targets)
    ensures jobId in jobs && !jobs[jobId].complete ==> r == Err(HttpError(400, "Job not completed yet"))
  {
    if jobId !in jobs then Err(HttpError(404, "Job not found"))
    else
      var job := jobs[jobId];
      if !job.complete then Err(HttpError(400, "Job not completed yet"))
      else if HasError(job) then Err(HttpError(400, "Job failed: " + job.error.value))
      else if job.results.None? then Err(HttpError(400, "No results to export"))
      else Ok(Exports(targets))
  }

  /**
   * A job whose publishing stage raised an exception with an empty message
   * is `failed`, yet passes the export gate.
   */
  lemma ExportFailedJobPasses(e: JobEntry, text: string, a: map<string, Json>, targets: seq<string>)
    requires Consistent(e) && e.status == Processing
    ensures var failed := PipelineEntry(e, Ok(text), Ok(JObj(a)), Some(""));
      failed.status == Failed && ExportAsWritten(map[e.id := failed], e.id, targets).Ok?
  {
  }

  /** export_results with the gate on the job's status, as evidently intended. */
  function ExportReply(jobs: map<string, JobEntry>, jobId: string, targets: seq<string>)
    : (r: Result<map<string, ExportEntry>, HttpError>)
    ensures jobId !in jobs <==> r == Err(HttpError(404, "Job not found"))
    ensures r.Ok? ==> r.value == Exports(targets)
  {
    if jobId !in jobs then Err(HttpError(404, "Job not found"))
    else
      var job := jobs[jobId];
      if !job.complete then Err(HttpError(400, "Job not completed yet"))
      else if job.status == Failed then Err(HttpError(400, "Job failed: " + job.error.GetOr("")))
      else if job.results.None? then Err(HttpError(400, "No results to export"))
      else Ok(Exports(targets))
  }

  /** With the status gate only completed jobs export, and every completed job does. */
  lemma ExportOnlyCompleted(jobs: map<string, JobEntry>, jobId: string, targets: seq<string>)
    requires jobId in jobs && Consistent(jobs[jobId])
    ensures ExportReply(jobs, jobId, targets).Ok? <==> jobs[jobId].status == Completed
  {
  }

  // ---------------------------------------------------------------------
  // list_jobs

  /** Python's xs[start:stop] with step 1, negative bounds counted from the end. */
  function PySlice<T>(xs: seq<T>, start: int, stop: int): (r: seq<T>)
    ensures |r| <= |xs|
  {
    var n := |xs|;
    var s := if start < 0 then (if start + n < 0 then 0 else start + n) else (if start > n then n else start);
    var e := if stop < 0 then (if stop + n < 0 then 0 else stop + n) else (if stop > n then n else stop);
    if s < e then xs[s..e] else []
  }

  /** For a non-negative start and length, a slice is the run of at most `count` elements from `start`. */
  lemma PySliceWindow<T>(xs: seq<T>, start: int, count: int)
    requires 0 <= start && 0 <= count
    ensures var r := PySlice(xs, start, start + count);
      |r| == (if start >= |xs| then 0 else if start + count > |xs| then |xs| - start else count)
      && forall k :: 0 <= k < |r| ==> r[k] == xs[start + k]
  {
  }

  /** list_jobs as written: the page is sliced out of only the newest `limit` rows. */
  function ListAsWritten(t: Database.Tables, limit: int, offset: int): (r: seq<Database.JobSummary>)
    ensures 0 <= limit ==> |r| <= limit
  {
    var rows := Database.Listing(t, limit);
    Database.ListingOrder(t, limit);
    PySlice(rows, offset, offset + limit)
  }

  /** With an offset at least the limit, the listing is empty however many jobs are stored. */
  lemma ListAsWrittenEmptyPage(t: Database.Tables, limit: int, offset: int)
    requires 0 <= limit <= offset
    ensures ListAsWritten(t, limit, offset) == []
  {
    Database.ListingOrder(t, limit);
  }

  /** Two stored jobs, limit 1, offset 1: the second job is not listed. */
  lemma ListAsWrittenSkipsSecond()
    ensures var t := Database.EmptyTables.(jobs := [Database.NewJobRow("a", "a.mp3"), Database.NewJobRow("b", "b.mp3")]);
      ListAsWritten(t, 1, 1) == [] && |JobsPage(t, 1, 1)| == 1
  {
    var t := Database.EmptyTables.(jobs := [Database.NewJobRow("a", "a.mp3"), Database.NewJobRow("b", "b.mp3")]);
    ListAsWrittenEmptyPage(t, 1, 1);
    Database.ListingOrder(t, -1);
    PySliceWindow(Database.Listing(t, -1), 1, 1);
  }

  /** list_jobs as evidently intended: `limit` jobs from position `offset` of the newest-first list. */
  function JobsPage(t: Database.Tables, limit: int, offset: int): (r: seq<Database.JobSummary>)
    ensures 0 <= limit ==> |r| <= limit
  {
    var rows := Database.Listing(t, -1);
    Database.ListingOrder(t, -1);
    PySlice(rows, offset, offset + limit)
  }

  /** The intended page: the jobs at newest-first positions offset, offset + 1, ..., as many as exist up to `limit`. */
  lemma ListJobsPage(t: Database.Tables, limit: int, offset: int)
    requires 0 <= limit && 0 <= offset
    ensures var r := JobsPage(t, limit, offset); var n := |t.jobs|;
      |r| == (if offset >= n then 0 else if offset + limit > n then n - offset else limit)
      && forall k :: 0 <= k < |r| ==> (r[k].id == t.jobs[n - 1 - (offset + k)].id &&
        (r[k].hasAnalysis <==> t.jobs[n - 1 - (offset + k)].id in t.analysis))
  {
    Database.ListingOrder(t, -1);
    PySliceWindow(Database.Listing(t, -1), offset, limit);
  }

  // ---------------------------------------------------------------------
  // search_transcripts

  const SnippetLength := 200

  /** The search snippet: the first 200 characters and `...` when the text is longer, else the whole text. */
  function Snippet(text: string): (r: string)
    ensures |text| <= SnippetLength ==> r == text
    ensures |text| > SnippetLength ==> (|r| == SnippetLength + 3 && r[..SnippetLength] == text[..SnippetLength] &&
      EndsWith(r, "..."))
    ensures |r| <= SnippetLength + 3
  {
    if |text| > SnippetLength then text[..SnippetLength] + "..." else text
  }

  /** SQLite's `transcript_text LIKE '%query%'`: a substring test that folds ASCII letters only. */
  predicate Like(text: string, query: string) {
    Contains(AsciiLower(text), AsciiLower(query))
  }

  predicate Matches(row: Database.JobRow, query: string) {
    row.transcript.Some? && Like(row.transcript.value, query)
  }

  /** The rows with a matching transcript, newest first. */
  function Matching(jobs: seq<Database.JobRow>, query: string): (r: seq<Database.JobRow>)
    ensures forall row :: row in r ==> row in jobs && Matches(row, query)
    decreases |jobs|
  {
    if jobs == [] then []
    else
      var last := jobs[|jobs| - 1];
      (if Matches(last, query) then [last] else []) + Matching(jobs[..|jobs| - 1], query)
  }

  /** A matching row is never left out. */
  lemma {:induction false} MatchingComplete(jobs: seq<Database.JobRow>, query: string, k: nat)
    requires k < |jobs| && Matches(jobs[k], query)
    ensures jobs[k] in Matching(jobs, query)
    decreases |jobs|
  {
    if k < |jobs| - 1 {
      MatchingComplete(jobs[..|jobs| - 1], query, k);
    }
  }

  /** SQLite's LIMIT: a negative limit keeps every row. */
  function Limited<T>(xs: seq<T>, limit: int): (r: seq<T>)
    ensures |r| == if 0 <= limit < |xs| then limit else |xs|
    ensures forall k :: 0 <= k < |r| ==> r[k] == xs[k]
  {
    if 0 <= limit < |xs| then xs[..limit] else xs
  }

  /** One search result (its `created_at` left out). */
  datatype SearchHit = SearchHit(jobId: string, filename: string, snippet: string)

  function Hit(row: Database.JobRow): SearchHit {
    SearchHit(row.id, row.filename, Snippet(row.transcript.GetOr("")))
  }

  /** The rows search_transcripts fetches. */
  function SearchRows(t: Database.Tables, query: string, limit: int): seq<Database.JobRow> {
    Limited(Matching(t.jobs, query), limit)
  }

  /** Every hit is a stored job whose transcript contains the query, at most `limit` of them. */
  lemma SearchHitsMatch(t: Database.Tables, query: string, limit: int)
    ensures 0 <= limit ==> |SearchRows(t, query, limit)| <= limit
    ensures forall k :: 0 <= k < |SearchRows(t, query, limit)| ==>
      SearchRows(t, query, limit)[k] in t.jobs && Matches(SearchRows(t, query, limit)[k], query)
  {
    var rows := SearchRows(t, query, limit);
    forall k | 0 <= k < |rows|
      ensures rows[k] in t.jobs && Matches(rows[k], query)
    {
      assert rows[k] == Matching(t.jobs, query)[k];
    }
  }

  // ---------------------------------------------------------------------
  // delete_job

  /** The reply of delete_job given what the store's delete_job returned. */
  function DeleteReply(deleted: bool, jobId: string): (r: Result<string, HttpError>)
    ensures r.Ok? <==> deleted
  {
    if deleted then Ok("Job " + jobId + " deleted") else Err(HttpError(404, "Job not found"))
  }

  /**
   * delete_job as written: the store's delete_job runs first, and what it
   * returns decides the reply and whether the entry leaves memory; the
   * reply, the `jobs` map and the store after the call.
   */
  function DeleteAsWritten(jobs: map<string, JobEntry>, t: Database.Tables, jobId: string)
    : (r: (Result<string, HttpError>, map<string, JobEntry>, Database.Tables))
    ensures r.0.Ok? ==> r.1 == jobs - {jobId} && r.2 == Database.AfterDelete(t, jobId)
  {
    var stored := Database.DeleteJobResult(t, jobId);
    (DeleteReply(stored.1, jobId), if stored.1 then jobs - {jobId} else jobs, stored.0)
  }

  /**
   * The store's delete_job reports success for every id, so delete_job
   * answers an id that exists nowhere with "deleted", never 404.
   */
  lemma DeleteUnknownReportsDeleted(jobs: map<string, JobEntry>, t: Database.Tables, jobId: string)
    requires jobId !in jobs && Database.Lookup(t, jobId).None?
    ensures DeleteAsWritten(jobs, t, jobId).0 == Ok("Job " + jobId + " deleted")
    ensures DeleteOutcome(jobs, t, jobId) == Err(HttpError(404, "Job not found"))
  {
  }

  /** delete_job as evidently intended: 404 when the id is neither stored nor in memory. */
  function DeleteOutcome(jobs: map<string, JobEntry>, t: Database.Tables, jobId: string): (r: Result<string, HttpError>)
    ensures r.Err? <==> jobId !in jobs && Database.RowOf(t.jobs, jobId).None?
  {
    DeleteReply(jobId in jobs || Database.RowOf(t.jobs, jobId).Some?, jobId)
  }

  /** After the intended delete_job the id is gone from memory and store, whichever reply it gave. */
  lemma DeleteJobRemoves(jobs: map<string, JobEntry>, t: Database.Tables, jobId: string)
    ensures jobId !in jobs - {jobId} && Database.Lookup(Database.AfterDelete(t, jobId), jobId).None?
    ensures DeleteOutcome(jobs, t, jobId).Ok? <==> jobId in jobs || Database.Lookup(t, jobId).Some?
  {
    Database.DeleteJobEffect(t, jobId, jobId);
  }

  // ---------------------------------------------------------------------
  // The application state

  /** Storing a consistent entry under its own id keeps every entry of the map consistent. */
  lemma KeepsConsistent(jobs: map<string, JobEntry>, jobId: string, e: JobEntry)
    requires forall id :: id in jobs ==> jobs[id].id == id && Consistent(jobs[id])
    requires e.id == jobId && Consistent(e)
    ensures var m := jobs[jobId := e]; forall id :: id in m ==> m[id].id == id && Consistent(m[id])
  {
  }

  /** The process: the `jobs` map and the job store. */
  class Backend {
    var jobs: map<string, JobEntry>
    const db: Database.TranscriptDB

    /** Every entry sits under its own id and is consistent; the store's tables are valid. */
    ghost predicate Valid()
      reads this, db
    {
      db.Valid() && forall id :: id in jobs ==> jobs[id].id == id && Consistent(jobs[id])
    }

    constructor()
      ensures Valid() && jobs == map[] && db.State() == Database.EmptyTables
    {
      jobs := map[];
      db := new Database.TranscriptDB();
    }

    /**
     * process_audio: writes the upload to `<tempDir>/<jobId>_<name>` and stores
     * the entry of the new upload under the fresh id `jobId`. The write's
     * outcome is an input: `writeError` is `str(e)` of the exception that
     * opening, reading or writing raised, and then nothing is stored and the
     * reply is a 500 carrying that message.
     */
    method ProcessAudio(jobId: string, filename: string, tempDir: string, writeError: Option<string>)
      returns (response: Result<UploadResponse, HttpError>)
      requires Valid() && jobId !in jobs
      modifies this
      ensures Valid()
      ensures writeError.Some? ==> jobs == old(jobs) && response == Err(HttpError(500, writeError.value))
      ensures writeError.None? ==>
        jobs == old(jobs)[jobId := NewEntry(jobId, filename, PathJoin(tempDir, SafeFilename(jobId, filename)))] &&
        response == Ok(UploadReply(jobId))
    {
      var safeFilename := jobId + "_" + ReplaceChar(filename, ' ', '_');
      var filePath := PathJoin(tempDir, safeFilename);
      if writeError.Some? {
        return Err(HttpError(500, writeError.value));
      }
      jobs := jobs[jobId := JobEntry(jobId, filename, Processing, 0, false, Some(filePath), None, None, None, None, None)];
      response := Ok(UploadResponse(jobId, "Processing started", "/api/jobs/" + jobId, "/api/jobs/" + jobId + "/transcript",
        "/api/jobs/" + jobId + "/analysis", "/api/status/" + jobId));
    }

    /**
     * process_pipeline for the upload `jobId`, run to its end. The entry is
     * updated stage by stage; a stage that raises fails the job in memory
     * and in the store.
     */
    method ProcessPipeline(jobId: string, filename: string, transcribed: Result<string, string>,
                           analysed: Result<Json, string>, published: Option<string>)
      requires Valid() && jobId in jobs && jobs[jobId].status == Processing
      modifies this, db
      ensures Valid()
      ensures jobs == old(jobs)[jobId := PipelineEntry(old(jobs[jobId]), transcribed, analysed, published)]
      ensures db.State() == PipelineTables(old(db.State()), jobId, filename, transcribed, analysed, published)
    {
      PipelineConsistent(jobs[jobId], transcribed, analysed, published);
      ghost var entry, others := PipelineEntry(jobs[jobId], transcribed, analysed, published), jobs;
      var created := db.CreateJob(jobId, filename);
      RunStages(jobId, transcribed, analysed, published);
      KeepsConsistent(others, jobId, entry);
    }

    /** The stages of process_pipeline after the INSERT: transcription, then the rest. */
    method RunStages(jobId: string, transcribed: Result<string, string>, analysed: Result<Json, string>,
                     published: Option<string>)
      requires db.Valid() && jobId in jobs
      modifies this, db
      ensures db.Valid()
      ensures jobs == old(jobs)[jobId := PipelineEntry(old(jobs[jobId]), transcribed, analysed, published)]
      ensures db.State() == StageTables(old(db.State()), jobId, transcribed, analysed, published)
    {
      if transcribed.Err? {
        FailJob(jobId, transcribed.error);
        return;
      }
      var transcriptText := transcribed.value;
      var updated := db.UpdateTranscript(jobId, transcriptText);
      RecordTranscript(jobId, transcriptText);
      RunAnalysis(jobId, transcriptText, analysed, published);
    }

    /** The analysis stage of process_pipeline and the publishing step after it. */
    method RunAnalysis(jobId: string, transcriptText: string, analysed: Result<Json, string>, published: Option<string>)
      requires db.Valid() && jobId in jobs
      modifies this, db
      ensures db.Valid()
      ensures jobs == old(jobs)[jobId := AnalysisStage(old(jobs[jobId]), transcriptText, analysed, published)]
      ensures db.State() == AnalysisTables(old(db.State()), jobId, analysed, published)
    {
      if analysed.Err? {
        FailJob(jobId, analysed.error);
        return;
      }
      var analysisResult := analysed.value;
      var saved := db.SaveAnalysis(jobId, analysisResult, "");
      if !analysisResult.JObj? {
        jobs := jobs[jobId := jobs[jobId].(analysis := Some(analysisResult))];
        FailJob(jobId, "'" + TypeName(analysisResult) + "' object has no attribute 'get'");
        return;
      }
      RecordAnalysis(jobId, transcriptText, analysisResult);
      RunPublish(jobId, published);
    }

    /** The last step of process_pipeline: a failed publication fails the job, otherwise it completes. */
    method RunPublish(jobId: string, published: Option<string>)
      requires db.Valid() && jobId in jobs
      modifies this, db
      ensures db.Valid()
      ensures jobs == old(jobs)[jobId := PublishStage(old(jobs[jobId]), published)]
      ensures db.State() == PublishTables(old(db.State()), jobId, published)
    {
      if published.Some? {
        FailJob(jobId, published.value);
        return;
      }
      RecordCompletion(jobId);
    }

    /** The transcript, its length and progress 50 stored in the entry. */
    method RecordTranscript(jobId: string, transcriptText: string)
      requires jobId in jobs
      modifies this
      ensures jobs == old(jobs)[jobId := Transcribed(old(jobs[jobId]), transcriptText)]
    {
      jobs := jobs[jobId := jobs[jobId].(transcript := Some(transcriptText))];
      jobs := jobs[jobId := jobs[jobId].(transcriptChars := Some(|transcriptText|))];
      jobs := jobs[jobId := jobs[jobId].(progress := 50)];
    }

    /** The analysis dict, the `results` dict and progress 75 stored in the entry. */
    method RecordAnalysis(jobId: string, transcriptText: string, analysisResult: Json)
      requires jobId in jobs && analysisResult.JObj?
      modifies this
      ensures jobs == old(jobs)[jobId := Analysed(old(jobs[jobId]), transcriptText, analysisResult)]
    {
      var data := analysisResult.fields;
      jobs := jobs[jobId := jobs[jobId].(analysis := Some(analysisResult))];
      jobs := jobs[jobId := jobs[jobId].(results := Some(Results(transcriptText, Get(data, "summary", JStr("")),
        Get(data, "tasks", JArr([])), Get(data, "key_points", JArr([])), Get(data, "decisions", JArr([])))))];
      jobs := jobs[jobId := jobs[jobId].(progress := 75)];
    }

    /** The final status: `completed`, progress 100, complete. */
    method RecordCompletion(jobId: string)
      requires jobId in jobs
      modifies this
      ensures jobs == old(jobs)[jobId := Finished(old(jobs[jobId]))]
    {
      jobs := jobs[jobId := jobs[jobId].(status := Completed)];
      jobs := jobs[jobId := jobs[jobId].(progress := 100)];
      jobs := jobs[jobId := jobs[jobId].(complete := true)];
    }

    /** The `except` branch of process_pipeline. */
    method FailJob(jobId: string, message: string)
      requires db.Valid() && jobId in jobs
      modifies this, db
      ensures db.Valid()
      ensures jobs == old(jobs)[jobId := Fail(old(jobs[jobId]), message)]
      ensures db.State() == MarkFailed(old(db.State()), jobId)
    {
      jobs := jobs[jobId := jobs[jobId].(status := Failed)];
      jobs := jobs[jobId := jobs[jobId].(error := Some(message))];
      jobs := jobs[jobId := jobs[jobId].(complete := true)];
      db.MarkFailed(jobId);
    }

    /** get_status. */
    method GetStatus(jobId: string) returns (r: Result<StatusView, HttpError>)
      ensures r == StatusOf(jobs, db.State(), jobId)
    {
      if jobId !in jobs {
        var jobData := db.GetJob(jobId);
        if jobData.Some? {
          var status := jobData.value.row.status;
          var done := status == Database.Completed || status == Database.Failed;
          return Ok(Stored(jobId, status, if done then 100 else 0, done, jobData.value.row.filename));
        }
        return Err(HttpError(404, "Job not found"));
      }
      var job := jobs[jobId];
      job := job.(filePath := None);
      r := Ok(Live(job));
    }

    /** export_results, its failed-job gate testing the status (see ExportReply). */
    method ExportResults(jobId: string, targets: seq<string>) returns (r: Result<map<string, ExportEntry>, HttpError>)
      ensures r == ExportReply(jobs, jobId, targets)
    {
      if jobId !in jobs {
        return Err(HttpError(404, "Job not found"));
      }
      var job := jobs[jobId];
      if !job.complete {
        return Err(HttpError(400, "Job not completed yet"));
      }
      if job.status == Failed {
        return Err(HttpError(400, "Job failed: " + job.error.GetOr("")));
      }
      if job.results.None? {
        return Err(HttpError(400, "No results to export"));
      }
      var exports: map<string, ExportEntry> := map[];
      if GoogleDocs in targets {
        exports := exports[GoogleDocs := AlreadyExported("Already exported during processing")];
      }
      r := Ok(exports);
    }

    /** list_jobs, the page taken from every stored job (see JobsPage); a negative LIMIT is no limit in SQLite. */
    method ListJobs(limit: int, offset: int) returns (r: seq<Database.JobSummary>)
      ensures r == JobsPage(db.State(), limit, offset)
    {
      var jobsList := db.GetAllJobs(-1);
      r := PySlice(jobsList, offset, offset + limit);
    }

    /** search_transcripts: the LIKE query, then one result per fetched row. */
    method SearchTranscripts(query: string, limit: int) returns (results: seq<SearchHit>, count: nat)
      ensures results == Map(Hit, SearchRows(db.State(), query, limit))
      ensures count == |results|
    {
      var rows := SearchRows(db.State(), query, limit);
      results := [];
      for k := 0 to |rows|
        invariant results == Map(Hit, rows[..k])
      {
        var row := rows[k];
        var text := row.transcript.GetOr("");
        var snippet := if |text| > 200 then text[..200] + "..." else text;
        results := results + [SearchHit(row.id, row.filename, snippet)];
        assert rows[..k + 1] == rows[..k] + [rows[k]];
        MapConcat(Hit, rows[..k], [rows[k]]);
        assert Map(Hit, [rows[k]]) == [Hit(rows[k])];
      }
      assert rows[..|rows|] == rows;
      count := |results|;
    }

    /** delete_job, answering 404 for an id known neither in memory nor in the store (see DeleteOutcome). */
    method DeleteJob(jobId: string) returns (r: Result<string, HttpError>)
      requires Valid()
      modifies this, db
      ensures Valid()
      ensures r == DeleteOutcome(old(jobs), old(db.State()), jobId)
      ensures jobs == old(jobs) - {jobId}
      ensures db.State() == if r.Ok? then Database.AfterDelete(old(db.State()), jobId) else old(db.State())
    {
      var stored := db.GetJob(jobId);
      var known := jobId in jobs || stored.Some?;
      if known {
        var _ := db.DeleteJob(jobId);
        jobs := jobs - {jobId};
      }
      r := DeleteReply(known, jobId);
    }
  }
}
