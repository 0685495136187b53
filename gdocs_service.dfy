/**
 * GoogleDocsService of backend/services/gdocs_service.py: the environment
 * check of `_authenticate`, the values table `create_sheet` writes, and the
 * URLs `create_doc` and `create_sheet` return. The Google API calls are
 * inputs: the id a create call returned or the message of the exception it
 * raised.
 */
module GdocsService {
  import opened Wrappers
  import opened Text
  import opened Records

  /** Why `_authenticate` raised. */
  datatype AuthError = MissingVariable | InvalidJson | ApiError(message: string)

  /**
   * `_authenticate`: `None` when the services were built. An unset or empty
   * GOOGLE_SERVICE_ACCOUNT_JSON raises ValueError before parsing; text
   * `json.loads` rejects raises ValueError; any other failure while
   * building the credentials (`credentialsError`) is re-raised.
   */
  function Authenticate(env: Option<string>, isJson: string -> bool, credentialsError: Option<string>): (r: Option<AuthError>)
    ensures r == Some(MissingVariable) <==> env.None? || env.value == ""
    ensures r == Some(InvalidJson) <==> env.Some? && env.value != "" && !isJson(env.value)
    ensures r.None? <==> env.Some? && env.value != "" && isJson(env.value) && credentialsError.None?
  {
    if env.None? || env.value == "" then Some(MissingVariable)
    else if !isJson(env.value) then Some(InvalidJson)
    else match credentialsError
      case Some(m) => Some(ApiError(m))
      case None => None
  }

  const DocPrefix := "https://docs.google.com/document/d/"
  const SheetPrefix := "https://docs.google.com/spreadsheets/d/"
  const EditSuffix := "/edit"

  /** The URL create_doc returns for document `docId`. */
  function DocUrl(docId: string): string {
    DocPrefix + docId + EditSuffix
  }

  /** The URL create_sheet returns for spreadsheet `sheetId`. */
  function SheetUrl(sheetId: string): string {
    SheetPrefix + sheetId + EditSuffix
  }

  /** The id inside a URL of the form prefix, id, `/edit`. */
  function UrlId(url: string, prefix: string): (id: string)
    requires |prefix| + |EditSuffix| <= |url|
  {
    url[|prefix|..|url| - |EditSuffix|]
  }

  /** The id can be read back from either URL, so distinct ids give distinct URLs. */
  lemma UrlRoundTrip(id: string)
    ensures |DocPrefix| + |EditSuffix| <= |DocUrl(id)| && UrlId(DocUrl(id), DocPrefix) == id
    ensures |SheetPrefix| + |EditSuffix| <= |SheetUrl(id)| && UrlId(SheetUrl(id), SheetPrefix) == id
    ensures StartsWith(DocUrl(id), DocPrefix) && EndsWith(DocUrl(id), EditSuffix)
    ensures StartsWith(SheetUrl(id), SheetPrefix) && EndsWith(SheetUrl(id), EditSuffix)
  {
    assert DocUrl(id)[|DocPrefix|..|DocUrl(id)| - |EditSuffix|] == id;
    assert SheetUrl(id)[|SheetPrefix|..|SheetUrl(id)| - |EditSuffix|] == id;
  }

  /** The header row of the values table. */
  const SheetHeader: seq<string> := ["Задача", "Дедлайн", "Ответственный", "Приоритет"]
  const SheetDefaultPriority := "Medium"

  /** The row of one task: description, deadline, assignee, priority, a missing key read as its default. */
  function SheetRow(t: TaskDict): (row: seq<string>)
    ensures |row| == |SheetHeader|
  {
    [t.description.GetOr(""), t.deadline.GetOr(Unspecified), t.assignee.GetOr(Unspecified), t.priority.GetOr(SheetDefaultPriority)]
  }

  /** The task a row of four cells shows, every key present. */
  function RowTask(row: seq<string>): TaskDict
    requires |row| == |SheetHeader|
  {
    TaskDict(Some(row[0]), Some(row[1]), Some(row[2]), Some(row[3]))
  }

  /**
   * A row loses nothing of a task whose keys are all present, and a task
   * read back from a row writes the same row; a task without keys writes
   * the defaults in column order.
   */
  lemma SheetRowRoundTrip(t: TaskDict, row: seq<string>)
    requires |row| == |SheetHeader|
    ensures t.description.Some? && t.deadline.Some? && t.assignee.Some? && t.priority.Some? ==> RowTask(SheetRow(t)) == t
    ensures SheetRow(RowTask(row)) == row
    ensures SheetRow(TaskDict(None, None, None, None)) == ["", Unspecified, Unspecified, SheetDefaultPriority]
  {
  }

  /** The values table of create_sheet: the header, then one row per task in order. */
  method SheetValues(tasks: seq<TaskDict>) returns (values: seq<seq<string>>)
    ensures |values| == |tasks| + 1
    ensures values[0] == SheetHeader
    ensures forall r :: 1 <= r < |values| ==> values[r] == SheetRow(tasks[r - 1])
  {
    values := [SheetHeader];
    for k := 0 to |tasks|
      invariant |values| == k + 1
      invariant values[0] == SheetHeader
      invariant forall r :: 1 <= r < |values| ==> values[r] == SheetRow(tasks[r - 1])
    {
      var task := tasks[k];
      values := values + [[task.description.GetOr(""), task.deadline.GetOr(Unspecified),
        task.assignee.GetOr(Unspecified), task.priority.GetOr(SheetDefaultPriority)]];
    }
  }

  /**
   * create_doc: the document URL when the document was created and the
   * later calls succeeded, otherwise the exception raised.
   */
  function CreateDoc(created: Result<string, string>, writeError: Option<string>): (r: Result<string, string>)
    ensures r.Ok? <==> created.Ok? && writeError.None?
    ensures r.Ok? ==> r.value == DocUrl(created.value)
    ensures created.Err? ==> r == Err(created.error)
  {
    match created
    case Err(e) => Err(e)
    case Ok(docId) => if writeError.Some? then Err(writeError.value) else Ok(DocUrl(docId))
  }

  /**
   * create_sheet. `created` is what the spreadsheet create call did,
   * `writeError` the exception of the values update or the permission call
   * if one raised; `written` is the table passed to the values update,
   * empty when nothing was created.
   */
  method CreateSheet(tasks: seq<TaskDict>, created: Result<string, string>, writeError: Option<string>)
    returns (r: Result<string, string>, written: seq<seq<string>>)
    ensures r.Ok? <==> created.Ok? && writeError.None?
    ensures r.Ok? ==> r.value == SheetUrl(created.value)
    ensures created.Err? ==> r == Err(created.error) && written == []
    ensures created.Ok? ==> (|written| == |tasks| + 1 && written[0] == SheetHeader &&
      forall k :: 0 <= k < |tasks| ==> written[k + 1] == SheetRow(tasks[k]))
  {
    if created.Err? {
      return Err(created.error), [];
    }
    var sheetId := created.value;
    written := SheetValues(tasks);
    if writeError.Some? {
      return Err(writeError.value), written;
    }
    r := Ok(SheetUrl(sheetId));
  }
}
