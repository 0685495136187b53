/**
 * create_jira_issues of backend/services/jira_service.py: the fields built
 * for each task (summary, priority, due date, description) and the loop
 * that creates one issue per task, skips a task whose creation fails and
 * raises when nothing was created. The Jira client is an input: whether it
 * was initialised, and for the i-th task either the key of the created
 * issue or `None` when `issue_create` raised.
 */
module JiraService {
  import opened Wrappers
  import opened Text
  import opened Records
  import opened Seqs

  /** JIRA_PROJECT_KEY when the environment does not set it. */
  const DefaultProjectKey := "V2A"
  const DefaultSummary := "Задача из Voice2Action"
  const SummaryLimit := 255
  const DefaultTaskPriority := "Средний"
  const NoDescription := "Нет описания"

  /** os.getenv('JIRA_PROJECT_KEY', 'V2A'): only an unset variable takes the default. */
  function ProjectKey(env: Option<string>): (r: string)
    ensures env.Some? ==> r == env.value
    ensures env.None? ==> r == DefaultProjectKey
  {
    env.GetOr(DefaultProjectKey)
  }

  /** priority_map of the source: Russian priority names to Jira's. */
  const PriorityMap: map<string, string> := map["Высокий" := "High", "Средний" := "Medium", "Низкий" := "Low"]

  /** The Jira priority of a task: its mapped priority name, `Medium` for a missing or unknown one. */
  function JiraPriority(priority: Option<string>): (r: string)
    ensures r == "High" <==> priority == Some("Высокий")
    ensures r == "Low" <==> priority == Some("Низкий")
    ensures r == "Medium" <==> priority != Some("Высокий") && priority != Some("Низкий")
  {
    var p := priority.GetOr(DefaultTaskPriority);
    if p in PriorityMap then PriorityMap[p] else "Medium"
  }

  /** The issue summary: the task's description, or the default text, cut to 255 characters. */
  function IssueSummary(description: Option<string>): (r: string)
    ensures |r| <= SummaryLimit
    ensures StartsWith(description.GetOr(DefaultSummary), r)
    ensures |description.GetOr(DefaultSummary)| <= SummaryLimit ==> r == description.GetOr(DefaultSummary)
  {
    Take(description.GetOr(DefaultSummary), SummaryLimit)
  }

  /** The due date sent to Jira: the deadline when it is given, is not `Не указан` and splits on `-` into three parts. */
  function DueDate(deadline: Option<string>): Option<string> {
    var d := deadline.GetOr(Unspecified);
    if d != Unspecified && |Split(d, '-')| == 3 then Some(d) else None
  }

  /** A due date is set exactly for a deadline other than `Не указан` holding exactly two dashes, and it is that deadline. */
  lemma DueDateRule(deadline: Option<string>)
    ensures DueDate(deadline).Some? <==>
      deadline.Some? && deadline.value != Unspecified && CountChar(deadline.value, '-') == 2
    ensures DueDate(deadline).Some? ==> DueDate(deadline) == deadline
  {
    SplitCount(deadline.GetOr(Unspecified), '-');
  }

  /** The lines of the issue description up to the task's description. */
  function DescriptionHead(now: string): string {
    "\nИсточник: Voice2Action Bot\nСоздано: " + now + "\n\nОписание задачи:\n"
  }

  /**
   * The issue description: source line, creation time `now`, then the
   * task's description, assignee and priority with their defaults.
   */
  function IssueDescription(now: string, t: TaskDict): (r: string)
    ensures var d := t.description.GetOr(NoDescription);
      |DescriptionHead(now)| + |d| <= |r| && r[|DescriptionHead(now)|..|DescriptionHead(now)| + |d|] == d
    ensures StartsWith(r, DescriptionHead(now))
  {
    DescriptionHead(now) + t.description.GetOr(NoDescription) + DescriptionTail(t)
  }

  /** The lines of the issue description after the task's description. */
  function DescriptionTail(t: TaskDict): string {
    "\n\nОтветственный: " + t.assignee.GetOr(Unspecified) + "\nПриоритет: " + t.priority.GetOr(DefaultTaskPriority) + "\n"
  }

  /** The `fields` dict passed to issue_create. */
  datatype IssueFields = IssueFields(
    project: string,
    summary: string,
    description: string,
    issueType: string,
    priority: string,
    dueDate: Option<string>)

  /** The fields of the issue for task `t`. */
  function BuildFields(projectKey: string, now: string, t: TaskDict): (r: IssueFields)
    ensures r.project == projectKey && r.issueType == "Task"
    ensures |r.summary| <= SummaryLimit
    ensures r.priority in {"High", "Medium", "Low"}
    ensures r.dueDate.Some? ==> r.dueDate.value != Unspecified && CountChar(r.dueDate.value, '-') == 2
  {
    DueDateRule(t.deadline);
    IssueFields(projectKey, IssueSummary(t.description), IssueDescription(now, t), "Task",
      JiraPriority(t.priority), DueDate(t.deadline))
  }

  /** The `fields` dict as the loop body builds it, the due date added after the rest. */
  method TaskFields(projectKey: string, now: string, task: TaskDict) returns (fields: IssueFields)
    ensures fields == BuildFields(projectKey, now, task)
  {
    var description := IssueDescription(now, task);
    var priority := JiraPriority(task.priority);
    fields := IssueFields(projectKey, IssueSummary(task.description), description, "Task", priority, None);
    var deadline := task.deadline.GetOr(Unspecified);
    if deadline != Unspecified {
      if |Split(deadline, '-')| == 3 {
        fields := fields.(dueDate := Some(deadline));
      }
    }
  }

  /** One entry of the returned list. */
  datatype CreatedIssue = CreatedIssue(key: string, url: string, summary: string)

  /** The browse URL of issue `key`. */
  function IssueUrl(jiraUrl: string, key: string): string {
    jiraUrl + "/browse/" + key
  }

  /**
   * The issues created for `tasks` when `outcomes[i]` is what issue_create
   * did for task i: the tasks whose creation succeeded, in input order.
   */
  function Created(jiraUrl: string, tasks: seq<TaskDict>, outcomes: seq<Option<string>>): (r: seq<CreatedIssue>)
    requires |outcomes| == |tasks|
    ensures |r| <= |tasks|
    decreases |tasks|
  {
    if tasks == [] then []
    else
      var n := |tasks| - 1;
      Created(jiraUrl, tasks[..n], outcomes[..n]) + Entry(jiraUrl, tasks[n], outcomes[n])
  }

  /** The entry one task adds: one issue when its creation returned a key, none when it raised. */
  function Entry(jiraUrl: string, task: TaskDict, outcome: Option<string>): seq<CreatedIssue> {
    match outcome
    case Some(key) => [CreatedIssue(key, IssueUrl(jiraUrl, key), IssueSummary(task.description))]
    case None => []
  }

  /** The number of successful outcomes. */
  function Successes(outcomes: seq<Option<string>>): nat
    decreases |outcomes|
  {
    if outcomes == [] then 0
    else Successes(outcomes[..|outcomes| - 1]) + if outcomes[|outcomes| - 1].Some? then 1 else 0
  }

  /** One issue per successful creation; each URL is the Jira URL, `/browse/` and the issue's key; each summary fits. */
  lemma {:induction false} CreatedIssues(jiraUrl: string, tasks: seq<TaskDict>, outcomes: seq<Option<string>>)
    requires |outcomes| == |tasks|
    ensures |Created(jiraUrl, tasks, outcomes)| == Successes(outcomes)
    ensures forall k :: 0 <= k < |Created(jiraUrl, tasks, outcomes)| ==>
      Created(jiraUrl, tasks, outcomes)[k].url == IssueUrl(jiraUrl, Created(jiraUrl, tasks, outcomes)[k].key)
      && |Created(jiraUrl, tasks, outcomes)[k].summary| <= SummaryLimit
    decreases |tasks|
  {
    if tasks != [] {
      var n := |tasks| - 1;
      CreatedIssues(jiraUrl, tasks[..n], outcomes[..n]);
    }
  }

  /**
   * Failure isolation: the issues created for two batches of tasks are
   * those of the first batch followed by those of the second, whatever
   * failed in either.
   */
  lemma {:induction false} CreatedConcat(jiraUrl: string, t1: seq<TaskDict>, o1: seq<Option<string>>,
                                          t2: seq<TaskDict>, o2: seq<Option<string>>)
    requires |o1| == |t1| && |o2| == |t2|
    ensures Created(jiraUrl, t1 + t2, o1 + o2) == Created(jiraUrl, t1, o1) + Created(jiraUrl, t2, o2)
    decreases |t2|
  {
    if t2 != [] {
      var n := |t2| - 1;
      CreatedConcat(jiraUrl, t1, o1, t2[..n], o2[..n]);
      var t, o, m := t1 + t2, o1 + o2, |t1| + n;
      assert t[..m] == t1 + t2[..n];
      assert o[..m] == o1 + o2[..n];
      assert t[m] == t2[n] && o[m] == o2[n];
      var e := Entry(jiraUrl, t2[n], o2[n]);
      var c1, c2 := Created(jiraUrl, t1, o1), Created(jiraUrl, t2[..n], o2[..n]);
      assert Created(jiraUrl, t, o) == Created(jiraUrl, t[..m], o[..m]) + e;
      assert Created(jiraUrl, t2, o2) == c2 + e;
      assert (c1 + c2) + e == c1 + (c2 + e);
    } else {
      assert t1 + t2 == t1 && o1 + o2 == o1;
    }
  }

  /** When every creation succeeds, issue k belongs to task k. */
  lemma {:induction false} CreatedAllSucceed(jiraUrl: string, tasks: seq<TaskDict>, outcomes: seq<Option<string>>)
    requires |outcomes| == |tasks|
    requires forall i :: 0 <= i < |outcomes| ==> outcomes[i].Some?
    ensures |Created(jiraUrl, tasks, outcomes)| == |tasks|
    ensures forall k :: 0 <= k < |tasks| ==> (Created(jiraUrl, tasks, outcomes)[k] ==
      CreatedIssue(outcomes[k].value, IssueUrl(jiraUrl, outcomes[k].value), IssueSummary(tasks[k].description)))
    decreases |tasks|
  {
    if tasks != [] {
      var n := |tasks| - 1;
      CreatedAllSucceed(jiraUrl, tasks[..n], outcomes[..n]);
    }
  }

  /** Why create_jira_issues raised. */
  datatype JiraError = NotConfigured | NothingCreated

  /** What create_jira_issues returns or raises. */
  function JiraOutcome(clientReady: bool, jiraUrl: string, tasks: seq<TaskDict>, outcomes: seq<Option<string>>)
    : (r: Result<seq<CreatedIssue>, JiraError>)
    requires |outcomes| == |tasks|
    ensures !clientReady <==> r == Err(NotConfigured)
    ensures r == Err(NothingCreated) <==> clientReady && Successes(outcomes) == 0
    ensures r.Ok? ==> r.value == Created(jiraUrl, tasks, outcomes) && |r.value| >= 1
  {
    CreatedIssues(jiraUrl, tasks, outcomes);
    if !clientReady then Err(NotConfigured)
    else
      var created := Created(jiraUrl, tasks, outcomes);
      if created == [] then Err(NothingCreated) else Ok(created)
  }

  /** An empty task list raises even with a working client. */
  lemma NoTasksRaises(clientReady: bool, jiraUrl: string)
    ensures JiraOutcome(clientReady, jiraUrl, [], []).Err?
  {
  }

  /**
   * create_jira_issues. `requests` are the fields passed to issue_create,
   * one per task in order, none when the client is missing.
   */
  method CreateJiraIssues(clientReady: bool, jiraUrl: string, projectKey: string, now: string,
                          tasks: seq<TaskDict>, outcomes: seq<Option<string>>)
    returns (r: Result<seq<CreatedIssue>, JiraError>, requests: seq<IssueFields>)
    requires |outcomes| == |tasks|
    ensures r == JiraOutcome(clientReady, jiraUrl, tasks, outcomes)
    ensures requests == if clientReady then Map(t => BuildFields(projectKey, now, t), tasks) else []
  {
    requests := [];
    if !clientReady {
      return Err(NotConfigured), requests;
    }
    var createdIssues: seq<CreatedIssue> := [];
    for i := 0 to |tasks|
      invariant createdIssues == Created(jiraUrl, tasks[..i], outcomes[..i])
      invariant requests == Map(t => BuildFields(projectKey, now, t), tasks[..i])
    {
      var fields := TaskFields(projectKey, now, tasks[i]);
      requests := requests + [fields];
      assert tasks[..i + 1] == tasks[..i] + [tasks[i]];
      MapConcat(t => BuildFields(projectKey, now, t), tasks[..i], [tasks[i]]);
      assert tasks[..i + 1][..i] == tasks[..i] && outcomes[..i + 1][..i] == outcomes[..i];
      assert Created(jiraUrl, tasks[..i + 1], outcomes[..i + 1]) == createdIssues + Entry(jiraUrl, tasks[i], outcomes[i]);
      match outcomes[i]
      case None =>
      case Some(issueKey) =>
        var issueUrl := jiraUrl + "/browse/" + issueKey;
        createdIssues := createdIssues + [CreatedIssue(issueKey, issueUrl, fields.summary)];
    }
    assert tasks[..|tasks|] == tasks && outcomes[..|outcomes|] == outcomes;
    if createdIssues == [] {
      return Err(NothingCreated), requests;
    }
    return Ok(createdIssues), requests;
  }
}
