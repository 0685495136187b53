/**
 * TranscriptDB of backend/database.py: the three tables `jobs`, `analysis`
 * and `extracted_tasks` held as state. A `jobs` table is kept in insertion
 * order, which is `created_at` order; `analysis` is keyed by its primary
 * key `job_id`; `extracted_tasks` is kept in row-id order. JSON columns
 * hold the values that were serialised, read back unchanged; other columns
 * hold the value that was bound.
 */
module Database {
  import opened Wrappers
  import opened JsonData
  import opened Records
  import opened Seqs

  /** The values the `status` column takes. */
  datatype DbStatus = Processing | Transcribed | Completed | Failed

  /** A `jobs` row; `created_at` and `completed_at` are left out. */
  datatype JobRow = JobRow(
    id: string,
    filename: string,
    transcript: Option<string>,
    transcriptChars: Option<nat>,
    status: DbStatus,
    analysisJson: Option<Json>)

  /** An `analysis` row without its key. */
  datatype AnalysisRow = AnalysisRow(
    summary: Json,
    tasks: Json,
    keyPoints: Json,
    decisions: Json,
    rawResponse: string)

  /** An `extracted_tasks` row. */
  datatype TaskRow = TaskRow(
    rowId: nat,
    jobId: string,
    description: Json,
    deadline: Json,
    assignee: Json,
    priority: Json)

  /** The three tables, and the next AUTOINCREMENT id of `extracted_tasks`. */
  datatype Tables = Tables(
    jobs: seq<JobRow>,
    analysis: map<string, AnalysisRow>,
    tasks: seq<TaskRow>,
    nextRowId: nat)

  /** The database right after `_init_db`. */
  const EmptyTables := Tables([], map[], [], 1)

  /** `SELECT * FROM jobs WHERE id = ?`, first row. */
  function RowOf(jobs: seq<JobRow>, id: string): (r: Option<JobRow>)
    ensures r.Some? ==> r.value in jobs && r.value.id == id
    ensures r.None? ==> forall k :: 0 <= k < |jobs| ==> jobs[k].id != id
    decreases |jobs|
  {
    if jobs == [] then None
    else if jobs[0].id == id then Some(jobs[0])
    else RowOf(jobs[1..], id)
  }

  /** The `id` primary key: no two rows share an id. */
  ghost predicate UniqueIds(jobs: seq<JobRow>) {
    forall i, j :: 0 <= i < j < |jobs| ==> jobs[i].id != jobs[j].id
  }

  /** AUTOINCREMENT row ids: strictly increasing in table order and below the next id. */
  ghost predicate RowIdsIncreasing(tasks: seq<TaskRow>, nextRowId: nat) {
    (forall i, j :: 0 <= i < j < |tasks| ==> tasks[i].rowId < tasks[j].rowId)
    && forall k :: 0 <= k < |tasks| ==> tasks[k].rowId < nextRowId
  }

  ghost predicate ValidTables(t: Tables) {
    UniqueIds(t.jobs) && RowIdsIncreasing(t.tasks, t.nextRowId)
  }

  // ---------------------------------------------------------------------
  // Writes

  /** The row `create_job` inserts. */
  function NewJobRow(id: string, filename: string): JobRow {
    JobRow(id, filename, None, None, Processing, None)
  }

  /** The tables after a successful INSERT of job `id`. */
  function InsertJob(t: Tables, id: string, filename: string): Tables {
    t.(jobs := t.jobs + [NewJobRow(id, filename)])
  }

  /** `UPDATE jobs SET transcript_text, transcript_chars, status = 'transcribed' WHERE id = ?`. */
  function SetTranscript(jobs: seq<JobRow>, id: string, text: string): (r: seq<JobRow>) {
    Map((row: JobRow) => if row.id == id then row.(transcript := Some(text), transcriptChars := Some(|text|), status := Transcribed) else row, jobs)
  }

  /** `UPDATE jobs SET status = ? WHERE id = ?`. */
  function SetStatus(jobs: seq<JobRow>, id: string, status: DbStatus): (r: seq<JobRow>) {
    Map((row: JobRow) => if row.id == id then row.(status := status) else row, jobs)
  }

  /** `UPDATE jobs SET analysis_json, status = 'completed' WHERE id = ?`. */
  function SetAnalysis(jobs: seq<JobRow>, id: string, data: Json): (r: seq<JobRow>) {
    Map((row: JobRow) => if row.id == id then row.(analysisJson := Some(data), status := Completed) else row, jobs)
  }

  /** The `analysis` row save_analysis writes for the dict `data`: missing keys read as "" and []. */
  function AnalysisRowOf(data: map<string, Json>, raw: string): AnalysisRow {
    AnalysisRow(Get(data, "summary", JStr("")), Get(data, "tasks", JArr([])), Get(data, "key_points", JArr([])),
      Get(data, "decisions", JArr([])), raw)
  }

  /** The `extracted_tasks` row of one task dict, its missing keys read as their defaults. */
  function TaskRowOf(rowId: nat, jobId: string, task: Json): TaskRow {
    var f := FieldsOf(task);
    TaskRow(rowId, jobId, Get(f, "description", JStr("")), Get(f, "deadline", JStr(Unspecified)),
      Get(f, "assignee", JStr(Unspecified)), Get(f, "priority", JStr("Medium")))
  }

  /**
   * What `for task in tasks` runs over: an array's elements; nothing for an
   * empty string or an empty dict. None when the loop raises on its first
   * step: null, a bool or a number is not iterable, and a non-empty string
   * or dict yields strings (characters, keys), on which `task.get` raises.
   */
  function TaskItems(tasks: Json): Option<seq<Json>> {
    match tasks
    case JArr(items) => Some(items)
    case JStr(s) => if s == "" then Some([]) else None
    case JObj(m) => if m == map[] then Some([]) else None
    case _ => None
  }

  /** A task the loop can insert: a dict whose four values sqlite3 can bind. */
  predicate TaskStorable(task: Json) {
    task.JObj? && var r := TaskRowOf(0, "", task);
    Scalar(r.description) && Scalar(r.deadline) && Scalar(r.assignee) && Scalar(r.priority)
  }

  /**
   * save_analysis reaches its commit: the data is a dict (otherwise `.get`
   * raises), its summary can be bound, and the task loop runs over dicts
   * with bindable values. Whatever raises rolls the whole call back.
   */
  predicate Saves(data: Json) {
    data.JObj? && Scalar(Get(data.fields, "summary", JStr("")))
    && var items := TaskItems(Get(data.fields, "tasks", JArr([])));
    items.Some? && forall k :: 0 <= k < |items.value| ==> TaskStorable(items.value[k])
  }

  /** The tasks save_analysis inserts for `data`, once it saves. */
  function SavedTasks(data: Json): seq<Json> {
    TaskItems(Get(FieldsOf(data), "tasks", JArr([]))).GetOr([])
  }

  /** The rows the save_analysis loop inserts for `tasks`, ids from `nextRowId` on. */
  function TaskRows(jobId: string, tasks: seq<Json>, nextRowId: nat): (r: seq<TaskRow>)
    ensures |r| == |tasks|
    decreases |tasks|
  {
    if tasks == [] then []
    else
      var n := |tasks| - 1;
      TaskRows(jobId, tasks[..n], nextRowId) + [TaskRowOf(nextRowId + n, jobId, tasks[n])]
  }

  /** The rows inserted for the tasks: task k in row k, with id `nextRowId + k`, under `jobId`. */
  lemma {:induction false} TaskRowsAt(jobId: string, tasks: seq<Json>, nextRowId: nat)
    ensures forall k :: 0 <= k < |tasks| ==> TaskRows(jobId, tasks, nextRowId)[k] == TaskRowOf(nextRowId + k, jobId, tasks[k])
    decreases |tasks|
  {
    if tasks != [] {
      TaskRowsAt(jobId, tasks[..|tasks| - 1], nextRowId);
    }
  }

  /** The tables once save_analysis for job `id` commits. */
  function AfterSave(t: Tables, id: string, data: Json, raw: string): Tables {
    var tasks := SavedTasks(data);
    Tables(SetAnalysis(t.jobs, id, data), t.analysis[id := AnalysisRowOf(FieldsOf(data), raw)],
      t.tasks + TaskRows(id, tasks, t.nextRowId), t.nextRowId + |tasks|)
  }

  /** The tables after save_analysis: committed when it saves, otherwise rolled back. */
  function SaveTables(t: Tables, id: string, data: Json, raw: string): Tables {
    if Saves(data) then AfterSave(t, id, data, raw) else t
  }

  /** The jobs rows other than those of `id`. */
  function JobsWithout(jobs: seq<JobRow>, id: string): (r: seq<JobRow>)
    ensures forall row :: row in r ==> row in jobs && row.id != id
    decreases |jobs|
  {
    if jobs == [] then []
    else (if jobs[0].id == id then [] else [jobs[0]]) + JobsWithout(jobs[1..], id)
  }

  /** The extracted_tasks rows other than those of job `id`. */
  function TasksWithout(tasks: seq<TaskRow>, id: string): (r: seq<TaskRow>)
    ensures |r| <= |tasks|
    decreases |tasks|
  {
    if tasks == [] then []
    else (if tasks[0].jobId == id then [] else [tasks[0]]) + TasksWithout(tasks[1..], id)
  }

  /** The tables after delete_job(`id`): the three DELETE statements. */
  function AfterDelete(t: Tables, id: string): Tables {
    Tables(JobsWithout(t.jobs, id), t.analysis - {id}, TasksWithout(t.tasks, id), t.nextRowId)
  }

  /** delete_job: the tables after its DELETEs, and what it returns, true whatever they matched. */
  function DeleteJobResult(t: Tables, id: string): (r: (Tables, bool))
    ensures r.1
  {
    (AfterDelete(t, id), true)
  }

  // ---------------------------------------------------------------------
  // Reads

  /** The `analysis` entry get_job returns: the row without the raw response. */
  datatype AnalysisView = AnalysisView(summary: Json, tasks: Json, keyPoints: Json, decisions: Json)

  /** What get_job returns for a job that exists. */
  datatype JobView = JobView(row: JobRow, analysis: Option<AnalysisView>, extractedTasks: seq<TaskRow>)

  /** `SELECT * FROM extracted_tasks WHERE job_id = ?`, in table order. */
  function TasksOf(tasks: seq<TaskRow>, id: string): seq<TaskRow>
    decreases |tasks|
  {
    if tasks == [] then []
    else
      var n := |tasks| - 1;
      TasksOf(tasks[..n], id) + if tasks[n].jobId == id then [tasks[n]] else []
  }

  /** get_job: None for an unknown id; the analysis entry is None exactly when no analysis row exists. */
  function Lookup(t: Tables, id: string): (r: Option<JobView>)
    ensures r.None? <==> RowOf(t.jobs, id).None?
    ensures r.Some? ==> r.value.row.id == id && (r.value.analysis.None? <==> id !in t.analysis)
  {
    match RowOf(t.jobs, id)
    case None => None
    case Some(row) =>
      var analysis := if id in t.analysis then
        var a := t.analysis[id];
        Some(AnalysisView(a.summary, a.tasks, a.keyPoints, a.decisions))
      else None;
      Some(JobView(row, analysis, TasksOf(t.tasks, id)))
  }

  /** One element of get_all_jobs (the timestamps left out). */
  datatype JobSummary = JobSummary(id: string, filename: string, status: DbStatus, hasAnalysis: bool)

  /** `ORDER BY created_at DESC LIMIT limit`: newest first; SQLite reads a negative limit as no limit. */
  function Newest(jobs: seq<JobRow>, limit: int): (r: seq<JobRow>)
    ensures |r| == if 0 <= limit < |jobs| then limit else |jobs|
    ensures forall k :: 0 <= k < |r| ==> r[k] == jobs[|jobs| - 1 - k]
  {
    var n := if 0 <= limit < |jobs| then limit else |jobs|;
    seq(n, k requires 0 <= k < n => jobs[|jobs| - 1 - k])
  }

  function Summary(row: JobRow, analysis: map<string, AnalysisRow>): JobSummary {
    JobSummary(row.id, row.filename, row.status, row.id in analysis)
  }

  /** get_all_jobs(limit). */
  function Listing(t: Tables, limit: int): seq<JobSummary> {
    Map((row: JobRow) => Summary(row, t.analysis), Newest(t.jobs, limit))
  }

  /**
   * get_all_jobs returns at most `limit` jobs (all of them for a negative
   * limit), newest first, and flags exactly those with an analysis row.
   */
  lemma ListingOrder(t: Tables, limit: int)
    ensures 0 <= limit ==> |Listing(t, limit)| <= limit
    ensures |Listing(t, limit)| == if 0 <= limit < |t.jobs| then limit else |t.jobs|
    ensures forall k :: 0 <= k < |Listing(t, limit)| ==>
      Listing(t, limit)[k].id == t.jobs[|t.jobs| - 1 - k].id
      && Listing(t, limit)[k].status == t.jobs[|t.jobs| - 1 - k].status
      && (Listing(t, limit)[k].hasAnalysis <==> t.jobs[|t.jobs| - 1 - k].id in t.analysis)
  {
    var l := Listing(t, limit);
    var rows := Newest(t.jobs, limit);
    forall k | 0 <= k < |l|
      ensures l[k] == Summary(t.jobs[|t.jobs| - 1 - k], t.analysis)
    {
      assert l[k] == Summary(rows[k], t.analysis);
    }
  }

  /** The number of jobs rows with status `s`. */
  function CountStatus(jobs: seq<JobRow>, s: DbStatus): nat
    decreases |jobs|
  {
    if jobs == [] then 0
    else CountStatus(jobs[..|jobs| - 1], s) + if jobs[|jobs| - 1].status == s then 1 else 0
  }

  const AllStatuses: set<DbStatus> := {Processing, Transcribed, Completed, Failed}

  /** total_jobs and by_status of get_statistics (GROUP BY yields only statuses that occur). */
  datatype Statistics = Statistics(totalJobs: nat, byStatus: map<DbStatus, nat>)

  function Stats(t: Tables): Statistics {
    Statistics(|t.jobs|, map s | s in AllStatuses && CountStatus(t.jobs, s) > 0 :: CountStatus(t.jobs, s))
  }

  /** `by_status.get(s, 0)`. */
  function CountOf(byStatus: map<DbStatus, nat>, s: DbStatus): nat {
    if s in byStatus then byStatus[s] else 0
  }

  /** The four status counts add up to the total. */
  lemma {:induction false} CountStatusPartition(jobs: seq<JobRow>)
    ensures CountStatus(jobs, Processing) + CountStatus(jobs, Transcribed) + CountStatus(jobs, Completed)
      + CountStatus(jobs, Failed) == |jobs|
    decreases |jobs|
  {
    if jobs != [] {
      CountStatusPartition(jobs[..|jobs| - 1]);
    }
  }

  /** by_status holds the statuses that occur, each with a positive count, and the counts sum to total_jobs. */
  lemma StatsPartition(t: Tables)
    ensures forall s :: s in Stats(t).byStatus ==> Stats(t).byStatus[s] > 0
    ensures CountOf(Stats(t).byStatus, Processing) + CountOf(Stats(t).byStatus, Transcribed)
      + CountOf(Stats(t).byStatus, Completed) + CountOf(Stats(t).byStatus, Failed) == Stats(t).totalJobs
  {
    CountStatusPartition(t.jobs);
  }

  // ---------------------------------------------------------------------
  // What the writes do to the reads

  /** Rows with the same ids in the same order answer every lookup the same way up to the row itself. */
  lemma {:induction false} RowOfMapped(jobs: seq<JobRow>, f: JobRow -> JobRow, id: string)
    requires forall row :: f(row).id == row.id
    ensures RowOf(Map(f, jobs), id) == match RowOf(jobs, id) case None => None case Some(row) => Some(f(row))
    decreases |jobs|
  {
    if jobs != [] {
      MapCons(f, jobs);
      RowOfMapped(jobs[1..], f, id);
    }
  }

  lemma {:induction false} RowOfAppend(jobs: seq<JobRow>, row: JobRow, id: string)
    ensures RowOf(jobs + [row], id) == if RowOf(jobs, id).Some? then RowOf(jobs, id) else if row.id == id then Some(row) else None
    decreases |jobs|
  {
    if jobs == [] {
    } else {
      assert (jobs + [row])[1..] == jobs[1..] + [row];
      RowOfAppend(jobs[1..], row, id);
    }
  }

  lemma {:induction false} TasksOfAppend(a: seq<TaskRow>, b: seq<TaskRow>, id: string)
    ensures TasksOf(a + b, id) == TasksOf(a, id) + TasksOf(b, id)
    decreases |b|
  {
    if b == [] {
      assert a + b == a;
    } else {
      var n := |b| - 1;
      TasksOfAppend(a, b[..n], id);
      assert (a + b)[..|a| + n] == a + b[..n];
      assert (a + b)[|a| + n] == b[n];
    }
  }

  /** The rows save_analysis inserts all belong to its job. */
  lemma {:induction false} TasksOfTaskRows(jobId: string, tasks: seq<Json>, nextRowId: nat, id: string)
    ensures TasksOf(TaskRows(jobId, tasks, nextRowId), id) == if id == jobId then TaskRows(jobId, tasks, nextRowId) else []
    decreases |tasks|
  {
    if tasks != [] {
      var n := |tasks| - 1;
      var rows := TaskRows(jobId, tasks, nextRowId);
      TasksOfTaskRows(jobId, tasks[..n], nextRowId, id);
      assert rows[..n] == TaskRows(jobId, tasks[..n], nextRowId);
    }
  }

  lemma {:induction false} RowOfWithout(jobs: seq<JobRow>, id: string, other: string)
    ensures RowOf(JobsWithout(jobs, id), other) == if other == id then None else RowOf(jobs, other)
    decreases |jobs|
  {
    if jobs != [] {
      RowOfWithout(jobs[1..], id, other);
      var rest := JobsWithout(jobs[1..], id);
      if jobs[0].id != id {
        assert JobsWithout(jobs, id) == [jobs[0]] + rest;
        assert ([jobs[0]] + rest)[1..] == rest;
      } else {
        assert JobsWithout(jobs, id) == rest;
      }
    }
  }

  lemma {:induction false} TasksOfWithout(tasks: seq<TaskRow>, id: string, other: string)
    ensures TasksOf(TasksWithout(tasks, id), other) == if other == id then [] else TasksOf(tasks, other)
    decreases |tasks|
  {
    if tasks != [] {
      var rest := TasksWithout(tasks[1..], id);
      TasksOfWithout(tasks[1..], id, other);
      TasksOfFront(tasks, other);
      TasksOfAppend(if tasks[0].jobId == id then [] else [tasks[0]], rest, other);
    }
  }

  /** TasksOf read from the front. */
  lemma TasksOfFront(tasks: seq<TaskRow>, id: string)
    requires tasks != []
    ensures TasksOf(tasks, id) == TasksOf([tasks[0]], id) + TasksOf(tasks[1..], id)
  {
    TasksOfAppend([tasks[0]], tasks[1..], id);
    assert [tasks[0]] + tasks[1..] == tasks;
  }

  /**
   * create_job on a new id: the tables stay valid, get_job finds the job
   * with status `processing` and no transcript, the id now has a row (the
   * row CreateJob's refusal tests), and every other id reads as before.
   */
  lemma InsertJobEffect(t: Tables, id: string, filename: string, other: string)
    requires ValidTables(t) && RowOf(t.jobs, id).None?
    ensures ValidTables(InsertJob(t, id, filename))
    ensures Lookup(InsertJob(t, id, filename), id).Some?
    ensures Lookup(InsertJob(t, id, filename), id).value.row == NewJobRow(id, filename)
    ensures RowOf(InsertJob(t, id, filename).jobs, id).Some?
    ensures other != id ==> Lookup(InsertJob(t, id, filename), other) == Lookup(t, other)
  {
    RowOfAppend(t.jobs, NewJobRow(id, filename), id);
    RowOfAppend(t.jobs, NewJobRow(id, filename), other);
  }

  /**
   * update_transcript: the job's transcript is the text and its character
   * count the text's length, status `transcribed`; other ids read as
   * before; an unknown id changes nothing.
   */
  lemma SetTranscriptEffect(t: Tables, id: string, text: string, other: string)
    ensures var r := Lookup(t.(jobs := SetTranscript(t.jobs, id, text)), id);
      RowOf(t.jobs, id).Some? ==> (r.Some? && r.value.row.transcript == Some(text) &&
        r.value.row.transcriptChars == Some(|text|) && r.value.row.status == Transcribed)
    ensures other != id ==> Lookup(t.(jobs := SetTranscript(t.jobs, id, text)), other) == Lookup(t, other)
    ensures RowOf(t.jobs, id).None? ==> SetTranscript(t.jobs, id, text) == t.jobs
  {
    var f := (row: JobRow) => if row.id == id then row.(transcript := Some(text), transcriptChars := Some(|text|), status := Transcribed) else row;
    RowOfMapped(t.jobs, f, id);
    RowOfMapped(t.jobs, f, other);
    if RowOf(t.jobs, id).None? {
      assert forall k :: 0 <= k < |t.jobs| ==> Map(f, t.jobs)[k] == t.jobs[k];
    }
  }

  /** A status UPDATE on a stored job: get_job then finds that status. */
  lemma SetStatusFinds(t: Tables, id: string, status: DbStatus)
    requires RowOf(t.jobs, id).Some?
    ensures var r := Lookup(t.(jobs := SetStatus(t.jobs, id, status)), id);
      r.Some? && r.value.row.status == status
  {
    var f := (row: JobRow) => if row.id == id then row.(status := status) else row;
    RowOfMapped(t.jobs, f, id);
  }

  /**
   * save_analysis on the tables: when it saves, the job's one analysis row
   * is the data with "" and [] for missing keys (an earlier one replaced)
   * and one task row per task is appended after the job's earlier rows;
   * when it raises, no table changes.
   */
  lemma SaveAnalysisRows(t: Tables, id: string, data: Json, raw: string)
    ensures !Saves(data) ==> SaveTables(t, id, data, raw) == t
    ensures Saves(data) ==> var r := SaveTables(t, id, data, raw);
      r.analysis.Keys == t.analysis.Keys + {id} && r.analysis[id] == AnalysisRowOf(data.fields, raw)
      && |r.tasks| == |t.tasks| + |SavedTasks(data)|
      && TasksOf(r.tasks, id) == TasksOf(t.tasks, id) + TaskRows(id, SavedTasks(data), t.nextRowId)
  {
    var rows := TaskRows(id, SavedTasks(data), t.nextRowId);
    TasksOfAppend(t.tasks, rows, id);
    TasksOfTaskRows(id, SavedTasks(data), t.nextRowId, id);
  }

  /**
   * After save_analysis get_job finds a stored job `completed`, with the
   * data and an analysis entry, when the save commits; when it rolls back
   * the job reads exactly as before (`transcribed` after the pipeline's
   * transcript UPDATE).
   */
  lemma SaveAnalysisLookup(t: Tables, id: string, data: Json, raw: string)
    ensures var r := Lookup(SaveTables(t, id, data, raw), id);
      Saves(data) && RowOf(t.jobs, id).Some? ==>
        r.Some? && r.value.row.status == Completed && r.value.row.analysisJson == Some(data) && r.value.analysis.Some?
    ensures !Saves(data) ==> Lookup(SaveTables(t, id, data, raw), id) == Lookup(t, id)
    ensures RowOf(t.jobs, id).None? ==> Lookup(SaveTables(t, id, data, raw), id).None?
  {
    var f := (row: JobRow) => if row.id == id then row.(analysisJson := Some(data), status := Completed) else row;
    RowOfMapped(t.jobs, f, id);
  }

  /** save_analysis for one job leaves what get_job returns for every other id unchanged. */
  lemma SaveAnalysisOthers(t: Tables, id: string, data: Json, raw: string, other: string)
    requires other != id
    ensures Lookup(SaveTables(t, id, data, raw), other) == Lookup(t, other)
  {
    if Saves(data) {
      var f := (row: JobRow) => if row.id == id then row.(analysisJson := Some(data), status := Completed) else row;
      var rows := TaskRows(id, SavedTasks(data), t.nextRowId);
      var r := AfterSave(t, id, data, raw);
      RowOfMapped(t.jobs, f, other);
      TasksOfAppend(t.tasks, rows, other);
      TasksOfTaskRows(id, SavedTasks(data), t.nextRowId, other);
      assert TasksOf(r.tasks, other) == TasksOf(t.tasks, other) + [];
      assert r.jobs == Map(f, t.jobs);
      assert RowOf(r.jobs, other) == RowOf(t.jobs, other) by {
        if RowOf(t.jobs, other).Some? {
          assert f(RowOf(t.jobs, other).value) == RowOf(t.jobs, other).value;
        }
      }
      LookupSame(r, t, other);
    }
  }

  /** get_job reads only the job's own rows. */
  lemma LookupSame(a: Tables, b: Tables, id: string)
    requires RowOf(a.jobs, id) == RowOf(b.jobs, id) && TasksOf(a.tasks, id) == TasksOf(b.tasks, id)
    requires (id in a.analysis <==> id in b.analysis) && (id in a.analysis ==> a.analysis[id] == b.analysis[id])
    ensures Lookup(a, id) == Lookup(b, id)
  {
  }

  /** save_analysis keeps the tables valid: the new row ids follow the old ones. */
  lemma SaveAnalysisValid(t: Tables, id: string, data: Json, raw: string)
    requires ValidTables(t)
    ensures ValidTables(SaveTables(t, id, data, raw))
  {
    var tasks := SavedTasks(data);
    var rows := TaskRows(id, tasks, t.nextRowId);
    TaskRowsAt(id, tasks, t.nextRowId);
    var f := (row: JobRow) => if row.id == id then row.(analysisJson := Some(data), status := Completed) else row;
    var jobs := Map(f, t.jobs);
    assert forall k :: 0 <= k < |jobs| ==> jobs[k].id == t.jobs[k].id;
    var all := t.tasks + rows;
    forall i, j | 0 <= i < j < |all|
      ensures all[i].rowId < all[j].rowId
    {
      if j >= |t.tasks| {
        assert all[j] == rows[j - |t.tasks|];
        if i >= |t.tasks| {
          assert all[i] == rows[i - |t.tasks|];
        }
      }
    }
  }

  /** Saving twice keeps one analysis row per job and appends the task rows twice; a rejected analysis changes nothing. */
  lemma SaveAnalysisTwice(t: Tables, id: string, data: Json, raw: string)
    ensures var r := SaveTables(SaveTables(t, id, data, raw), id, data, raw);
      Saves(data) ==> (r.analysis.Keys == t.analysis.Keys + {id}
        && |TasksOf(r.tasks, id)| == |TasksOf(t.tasks, id)| + 2 * |SavedTasks(data)|)
    ensures !Saves(data) ==> SaveTables(SaveTables(t, id, data, raw), id, data, raw) == t
  {
    var once := SaveTables(t, id, data, raw);
    SaveAnalysisRows(t, id, data, raw);
    SaveAnalysisRows(once, id, data, raw);
  }

  /**
   * Every analysis of the typed shape saves, with one task row per task:
   * strings and lists of dicts of strings are what the loop expects.
   */
  lemma TypedAnalysisSaves(a: AnalysisDict)
    ensures Saves(AnalysisValue(a))
    ensures SavedTasks(AnalysisValue(a)) == Map(TaskValue, a.tasks.GetOr([]))
  {
    var v := AnalysisValue(a);
    assert Get(v.fields, "summary", JStr("")) == if a.summary.Some? then JStr(a.summary.value) else JStr("");
    var tasks := Map(TaskValue, a.tasks.GetOr([]));
    assert Get(v.fields, "tasks", JArr([])) == JArr(tasks);
    forall k | 0 <= k < |tasks|
      ensures TaskStorable(tasks[k])
    {
      var t := a.tasks.value[k];
      assert tasks[k] == TaskValue(t);
    }
  }

  /**
   * Shapes json.loads can return on which save_analysis raises and rolls
   * back: a list, a null or string task list, a string among the tasks, a
   * list as summary. A null summary or an empty string as task list saves.
   */
  lemma SaveRejects()
    ensures !Saves(JArr([])) && !Saves(JStr("{}"))
    ensures !Saves(JObj(map["tasks" := JNull])) && !Saves(JObj(map["tasks" := JArr([JStr("Позвонить")])]))
    ensures !Saves(JObj(map["summary" := JArr([])]))
    ensures !Saves(JObj(map["summary" := JInt(100_000_000_000_000_000_000)])) && Saves(JObj(map["summary" := JFloat(100_000_000_000_000_000_000.0)]))
    ensures !Saves(JObj(map["tasks" := JArr([JObj(map["priority" := JInt(MaxInt64 + 1)])])]))
    ensures Saves(JObj(map["summary" := JNull])) && Saves(JObj(map["tasks" := JStr("")]))
  {
    var strTask := JObj(map["tasks" := JArr([JStr("Позвонить")])]);
    assert !TaskStorable(TaskItems(Get(strTask.fields, "tasks", JArr([]))).value[0]);
    var wideTask := JObj(map["tasks" := JArr([JObj(map["priority" := JInt(MaxInt64 + 1)])])]);
    assert !TaskStorable(TaskItems(Get(wideTask.fields, "tasks", JArr([]))).value[0]);
  }

  /** delete_job: the job reads as absent and every other id reads as before. */
  lemma DeleteJobEffect(t: Tables, id: string, other: string)
    ensures Lookup(AfterDelete(t, id), id).None?
    ensures other != id ==> Lookup(AfterDelete(t, id), other) == Lookup(t, other)
    ensures id !in AfterDelete(t, id).analysis && TasksOf(AfterDelete(t, id).tasks, id) == []
  {
    var d := AfterDelete(t, id);
    RowOfWithout(t.jobs, id, id);
    TasksOfWithout(t.tasks, id, id);
    if other != id {
      RowOfWithout(t.jobs, id, other);
      TasksOfWithout(t.tasks, id, other);
      assert other in d.analysis <==> other in t.analysis;
      LookupSame(d, t, other);
    }
  }

  /** delete_job keeps the tables valid. */
  lemma DeleteJobValid(t: Tables, id: string)
    requires ValidTables(t)
    ensures ValidTables(AfterDelete(t, id))
  {
    JobsWithoutOrdered(t.jobs, id);
    TasksWithoutOrdered(t.tasks, id, t.nextRowId);
  }

  lemma {:induction false} JobsWithoutOrdered(jobs: seq<JobRow>, id: string)
    requires UniqueIds(jobs)
    ensures UniqueIds(JobsWithout(jobs, id))
    decreases |jobs|
  {
    if jobs != [] {
      JobsWithoutOrdered(jobs[1..], id);
      var rest := JobsWithout(jobs[1..], id);
      assert forall row :: row in rest ==> row.id != jobs[0].id by {
        forall row | row in rest
          ensures row.id != jobs[0].id
        {
          var k :| 0 <= k < |jobs[1..]| && jobs[1..][k] == row;
          assert jobs[k + 1] == row;
        }
      }
    }
  }

  /** Removing a job's task rows keeps only rows of the table, none of them the job's. */
  lemma {:induction false} TasksWithoutRows(tasks: seq<TaskRow>, id: string)
    ensures forall row :: row in TasksWithout(tasks, id) ==> row in tasks && row.jobId != id
    decreases |tasks|
  {
    if tasks != [] {
      TasksWithoutRows(tasks[1..], id);
      assert TasksWithout(tasks, id) == (if tasks[0].jobId == id then [] else [tasks[0]]) + TasksWithout(tasks[1..], id);
    }
  }

  /** Row ids within bounds stay within them once a job's rows are removed. */
  lemma {:induction false} TasksWithoutWithin(tasks: seq<TaskRow>, id: string, lo: int, hi: int)
    requires forall k :: 0 <= k < |tasks| ==> lo < tasks[k].rowId < hi
    ensures forall k :: 0 <= k < |TasksWithout(tasks, id)| ==> lo < TasksWithout(tasks, id)[k].rowId < hi
    decreases |tasks|
  {
    if tasks != [] {
      var tail := tasks[1..];
      assert forall k :: 0 <= k < |tail| ==> tail[k] == tasks[k + 1];
      TasksWithoutWithin(tail, id, lo, hi);
    }
  }

  lemma {:induction false} TasksWithoutOrdered(tasks: seq<TaskRow>, id: string, nextRowId: nat)
    requires RowIdsIncreasing(tasks, nextRowId)
    ensures RowIdsIncreasing(TasksWithout(tasks, id), nextRowId)
    decreases |tasks|
  {
    TasksWithoutWithin(tasks, id, -1, nextRowId);
    if tasks != [] {
      var tail := tasks[1..];
      assert forall k :: 0 <= k < |tail| ==> tail[k] == tasks[k + 1];
      TasksWithoutOrdered(tail, id, nextRowId);
      TasksWithoutWithin(tail, id, tasks[0].rowId, nextRowId);
      var rest, r := TasksWithout(tail, id), TasksWithout(tasks, id);
      if tasks[0].jobId != id {
        assert r == [tasks[0]] + rest;
        assert forall i :: 1 <= i < |r| ==> r[i] == rest[i - 1];
      }
    }
  }

  /** A get_job lookup finds the job a row of the table holds. */
  lemma {:induction false} RowOfFinds(jobs: seq<JobRow>, k: nat)
    requires k < |jobs| && UniqueIds(jobs)
    ensures RowOf(jobs, jobs[k].id) == Some(jobs[k])
    decreases k
  {
    if k > 0 {
      RowOfFinds(jobs[1..], k - 1);
    }
  }

  // ---------------------------------------------------------------------
  // The class

  /** The SQLite file as object state; each method is one of the source's connections. */
  class TranscriptDB {
    var jobs: seq<JobRow>
    var analysis: map<string, AnalysisRow>
    var tasks: seq<TaskRow>
    var nextRowId: nat

    function State(): Tables
      reads this
    {
      Tables(jobs, analysis, tasks, nextRowId)
    }

    ghost predicate Valid()
      reads this
    {
      ValidTables(State())
    }

    /** `_init_db` on a fresh file: three empty tables. */
    constructor()
      ensures State() == EmptyTables && Valid()
    {
      jobs, analysis, tasks, nextRowId := [], map[], [], 1;
    }

    /** create_job: the INSERT fails on an existing id (primary key), returning false with nothing changed. */
    method CreateJob(jobId: string, filename: string) returns (ok: bool)
      requires Valid()
      modifies this
      ensures Valid()
      ensures ok <==> RowOf(old(jobs), jobId).None?
      ensures State() == if ok then InsertJob(old(State()), jobId, filename) else old(State())
    {
      if RowOf(jobs, jobId).Some? {
        return false;
      }
      InsertJobEffect(State(), jobId, filename, jobId);
      jobs := jobs + [NewJobRow(jobId, filename)];
      ok := true;
    }

    /** update_transcript: returns true even when no row has the id. */
    method UpdateTranscript(jobId: string, transcriptText: string) returns (ok: bool)
      requires Valid()
      modifies this
      ensures Valid() && ok
      ensures State() == old(State()).(jobs := SetTranscript(old(jobs), jobId, transcriptText))
    {
      jobs := SetTranscript(jobs, jobId, transcriptText);
      assert forall k :: 0 <= k < |jobs| ==> jobs[k].id == old(jobs)[k].id;
      ok := true;
    }

    /** The raw `UPDATE jobs SET status = 'failed'` the pipeline runs when a stage fails. */
    method MarkFailed(jobId: string)
      requires Valid()
      modifies this
      ensures Valid()
      ensures State() == old(State()).(jobs := SetStatus(old(jobs), jobId, Failed))
    {
      jobs := SetStatus(jobs, jobId, Failed);
      assert forall k :: 0 <= k < |jobs| ==> jobs[k].id == old(jobs)[k].id;
    }

    /**
     * save_analysis: the UPDATE of the job row, the INSERT OR REPLACE of its
     * analysis row, then one INSERT per task, all in one transaction that is
     * committed at the end; the first statement that raises returns false
     * with the transaction uncommitted.
     */
    method SaveAnalysis(jobId: string, analysisData: Json, rawGptResponse: string) returns (ok: bool)
      requires Valid()
      modifies this
      ensures Valid()
      ensures ok <==> Saves(analysisData)
      ensures State() == SaveTables(old(State()), jobId, analysisData, rawGptResponse)
    {
      if !analysisData.JObj? {
        return false;
      }
      var data := analysisData.fields;
      var pendingJobs := SetAnalysis(jobs, jobId, analysisData);
      var summary := Get(data, "summary", JStr(""));
      if !Scalar(summary) {
        return false;
      }
      var pendingAnalysis := analysis[jobId := AnalysisRowOf(data, rawGptResponse)];
      var taskItems := TaskItems(Get(data, "tasks", JArr([])));
      if taskItems.None? {
        return false;
      }
      var taskList := taskItems.value;
      var rows, rowId := tasks, nextRowId;
      for i := 0 to |taskList|
        invariant rows == tasks + TaskRows(jobId, taskList[..i], nextRowId)
        invariant rowId == nextRowId + i
        invariant forall k :: 0 <= k < i ==> TaskStorable(taskList[k])
      {
        var task := taskList[i];
        if !task.JObj? {
          return false;
        }
        var f := task.fields;
        var row := TaskRow(rowId, jobId, Get(f, "description", JStr("")), Get(f, "deadline", JStr(Unspecified)),
          Get(f, "assignee", JStr(Unspecified)), Get(f, "priority", JStr("Medium")));
        if !(Scalar(row.description) && Scalar(row.deadline) && Scalar(row.assignee) && Scalar(row.priority)) {
          return false;
        }
        assert taskList[..i + 1][..i] == taskList[..i];
        rows := rows + [row];
        rowId := rowId + 1;
      }
      assert taskList[..|taskList|] == taskList;
      SaveAnalysisValid(State(), jobId, analysisData, rawGptResponse);
      jobs, analysis, tasks, nextRowId := pendingJobs, pendingAnalysis, rows, rowId;
      ok := true;
    }

    /** get_job. */
    method GetJob(jobId: string) returns (job: Option<JobView>)
      ensures job == Lookup(State(), jobId)
    {
      var row := RowOf(jobs, jobId);
      if row.None? {
        return None;
      }
      var view: Option<AnalysisView> := None;
      if jobId in analysis {
        var a := analysis[jobId];
        view := Some(AnalysisView(a.summary, a.tasks, a.keyPoints, a.decisions));
      }
      job := Some(JobView(row.value, view, TasksOf(tasks, jobId)));
    }

    /** get_all_jobs: the SELECT, then one has_analysis lookup per fetched row. */
    method GetAllJobs(limit: int) returns (result: seq<JobSummary>)
      ensures result == Listing(State(), limit)
    {
      var rows := Newest(jobs, limit);
      result := [];
      for k := 0 to |rows|
        invariant result == Listing(State(), limit)[..k]
      {
        var row := rows[k];
        var hasAnalysis := row.id in analysis;
        result := result + [JobSummary(row.id, row.filename, row.status, hasAnalysis)];
      }
    }

    /** delete_job: the three DELETE statements; true whether or not the id existed. */
    method DeleteJob(jobId: string) returns (ok: bool)
      requires Valid()
      modifies this
      ensures Valid()
      ensures (State(), ok) == DeleteJobResult(old(State()), jobId)
    {
      DeleteJobValid(State(), jobId);
      tasks := TasksWithout(tasks, jobId);
      analysis := analysis - {jobId};
      jobs := JobsWithout(jobs, jobId);
      ok := true;
    }

    /** total_jobs and by_status of get_statistics. */
    method GetStatistics() returns (stats: Statistics)
      ensures stats == Stats(State())
      ensures CountOf(stats.byStatus, Processing) + CountOf(stats.byStatus, Transcribed)
        + CountOf(stats.byStatus, Completed) + CountOf(stats.byStatus, Failed) == stats.totalJobs
    {
      StatsPartition(State());
      stats := Stats(State());
    }
  }
}
