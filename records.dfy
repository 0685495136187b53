/**
 * The analysis record as the typed shapes `Task` and `Analysis` of
 * backend/models.py describe it. The source handles it as a dict read with
 * `.get(key, default)`, so each key may be missing: a field is `None` when
 * the key is absent. What json.loads actually returns is any JSON value
 * (`JsonData.Json`); a typed record stands for the dict it is written as.
 */
module Records {
  import opened Wrappers
  import opened JsonData
  import opened Seqs

  /** One action item as a dict: description, deadline, assignee, priority. */
  datatype TaskDict = TaskDict(
    description: Option<string>,
    deadline: Option<string>,
    assignee: Option<string>,
    priority: Option<string>)

  /** The analysis dict: summary, tasks, key_points, decisions. */
  datatype AnalysisDict = AnalysisDict(
    summary: Option<string>,
    tasks: Option<seq<TaskDict>>,
    keyPoints: Option<seq<string>>,
    decisions: Option<seq<string>>)

  /** The sentinel the backend writes for a missing deadline or assignee. */
  const Unspecified := "Не указан"

  /** `m` with `key` set to `v` when `v` is present. */
  function Put(m: map<string, Json>, key: string, v: Option<Json>): map<string, Json> {
    if v.Some? then m[key := v.value] else m
  }

  function StrValue(s: Option<string>): Option<Json> {
    if s.Some? then Some(JStr(s.value)) else None
  }

  /** A task dict as a JSON object holding its present keys. */
  function TaskValue(t: TaskDict): Json {
    JObj(Put(Put(Put(Put(map[], "description", StrValue(t.description)), "deadline", StrValue(t.deadline)),
      "assignee", StrValue(t.assignee)), "priority", StrValue(t.priority)))
  }

  function TasksValue(ts: Option<seq<TaskDict>>): Option<Json> {
    if ts.Some? then Some(JArr(Map(TaskValue, ts.value))) else None
  }

  function TextsValue(xs: Option<seq<string>>): Option<Json> {
    if xs.Some? then Some(JArr(Map((x: string) => JStr(x), xs.value))) else None
  }

  /** An analysis dict as a JSON object holding its present keys. */
  function AnalysisValue(a: AnalysisDict): Json {
    JObj(Put(Put(Put(Put(map[], "summary", StrValue(a.summary)), "tasks", TasksValue(a.tasks)),
      "key_points", TextsValue(a.keyPoints)), "decisions", TextsValue(a.decisions)))
  }
}
