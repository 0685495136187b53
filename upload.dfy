/**
 * frontend/js/upload.js: the upload page's progress bar, the check of a
 * selected file, the reading of a polled job and the text shown for a
 * failed request. The page's module-level variables become the fields of
 * UploadPage; the DOM, the network and timers are left out. JavaScript
 * numbers are reals here (NaN and the infinities are not modelled).
 */
module Upload {
  import opened Wrappers
  import opened Text
  import opened Seqs
  import opened JsonData

  // ---------------------------------------------------------------------
  // Progress

  /** STATUS_PROGRESS_MAP: the progress shown for a status the server reports without a number. */
  const StatusProgress: map<string, real> := map[
    "queued" := 5.0, "uploading" := 12.0, "transcribing" := 35.0, "processing" := 60.0,
    "analyzing" := 80.0, "exporting" := 90.0, "completed" := 100.0, "failed" := 100.0]

  /** Math.min(100, Math.max(0, percent)). */
  function Clamp(percent: real): (r: real)
    ensures 0.0 <= r <= 100.0
    ensures 0.0 <= percent <= 100.0 ==> r == percent
    ensures percent < 0.0 ==> r == 0.0
    ensures percent > 100.0 ==> r == 100.0
  {
    if percent > 100.0 then 100.0 else if percent < 0.0 then 0.0 else percent
  }

  /** The bar's value after updateProgress(percent): it never moves back. */
  function Advance(last: real, percent: real): real {
    if Clamp(percent) > last then Clamp(percent) else last
  }

  /** The bar after a series of updateProgress calls. */
  function Progressed(last: real, updates: seq<real>): real
    decreases |updates|
  {
    if updates == [] then last else Progressed(Advance(last, updates[0]), updates[1..])
  }

  /**
   * After any series of updates the bar shows the largest of its starting
   * value and the clamped updates: at least each of them, and equal to one
   * of them; starting within [0, 100] it stays there.
   */
  lemma {:induction false} ProgressedIsMax(last: real, updates: seq<real>)
    ensures Progressed(last, updates) >= last
    ensures forall k :: 0 <= k < |updates| ==> Progressed(last, updates) >= Clamp(updates[k])
    ensures Progressed(last, updates) == last || exists k :: 0 <= k < |updates| && Progressed(last, updates) == Clamp(updates[k])
    ensures 0.0 <= last <= 100.0 ==> 0.0 <= Progressed(last, updates) <= 100.0
    decreases |updates|
  {
    if updates != [] {
      var next := Advance(last, updates[0]);
      ProgressedIsMax(next, updates[1..]);
      assert forall k :: 1 <= k < |updates| ==> updates[k] == updates[1..][k - 1];
      if Progressed(last, updates) != next {
        var j :| 0 <= j < |updates[1..]| && Progressed(next, updates[1..]) == Clamp(updates[1..][j]);
        assert updates[j + 1] == updates[1..][j];
      }
    }
  }

  /** Repeating an update changes nothing, and updates commute: the bar depends only on their set. */
  lemma AdvanceOrderFree(last: real, p: real, q: real)
    ensures Advance(Advance(last, p), p) == Advance(last, p)
    ensures Advance(Advance(last, p), q) == Advance(Advance(last, q), p)
  {
  }

  /** deriveProgressFromStatus: the table's value for a known status, otherwise the bar's current value. */
  function DeriveProgress(status: Option<string>, last: real): (r: real)
    ensures status.Some? && status.value in StatusProgress ==> r == StatusProgress[status.value]
    ensures status.None? || status.value !in StatusProgress ==> r == last
  {
    if status.Some? && status.value in StatusProgress then StatusProgress[status.value] else last
  }

  /** getStatusText: for `processing` a stage named by the progress, any other status shown as it is. */
  function StatusText(status: string, progress: real): string {
    if status == "processing" then
      if progress < 30.0 then "Транскрипция (Yandex SpeechKit)..."
      else if progress < 70.0 then "Анализ (YandexGPT)..."
      else if progress < 90.0 then "Создание документов..."
      else "Завершение..."
    else status
  }

  /** The four stages of `processing` cover the progress scale in order, and only `processing` is translated. */
  lemma StatusTextStages(status: string, progress: real)
    ensures status != "processing" ==> StatusText(status, progress) == status
    ensures status == "processing" ==> (
      (StatusText(status, progress) == "Транскрипция (Yandex SpeechKit)..." <==> progress < 30.0) &&
      (StatusText(status, progress) == "Анализ (YandexGPT)..." <==> 30.0 <= progress < 70.0) &&
      (StatusText(status, progress) == "Создание документов..." <==> 70.0 <= progress < 90.0) &&
      (StatusText(status, progress) == "Завершение..." <==> 90.0 <= progress))
  {
  }

  // ---------------------------------------------------------------------
  // A polled job

  /**
   * The fields of a polled job the page reads: `progress` when it is a
   * number, `status` and `error` when they are strings (None for a missing
   * or null field).
   */
  datatype JobReply = JobReply(progress: Option<real>, status: Option<string>, error: Option<string>)

  /** What handleJobResponse does with a reply: hand the job back, keep polling, or throw. */
  datatype PollStep = Done(job: JobReply) | Continue | Raised(message: string)

  const ServerError := "Серверная ошибка"

  /** `job.status || 'processing'`: a missing or empty status reads as `processing`. */
  function ReplyStatus(job: JobReply): string {
    if job.status.Some? && job.status.value != "" then job.status.value else "processing"
  }

  /** The progress handleJobResponse reports: 100 for a completed job, then the number, then the table. */
  function ReportedProgress(job: JobReply, last: real): (r: real)
    ensures job.status == Some("completed") ==> r == 100.0
    ensures job.status != Some("completed") && job.progress.Some? ==> r == job.progress.value
    ensures job.status != Some("completed") && job.progress.None? ==> r == DeriveProgress(job.status, last)
  {
    if job.status == Some("completed") then 100.0
    else if job.progress.Some? then job.progress.value
    else DeriveProgress(job.status, last)
  }

  /** The outcome of handleJobResponse for a reply. */
  function PollOutcome(job: JobReply): (r: PollStep)
    ensures r.Done? <==> job.status == Some("completed")
    ensures r.Raised? <==> job.status == Some("failed")
    ensures r.Done? ==> r.job == job
    ensures r.Raised? ==> r.message == if job.error.Some? && job.error.value != "" then job.error.value else ServerError
  {
    var status := ReplyStatus(job);
    if status == "completed" then Done(job)
    else if status == "failed" then Raised(if job.error.Some? && job.error.value != "" then job.error.value else ServerError)
    else Continue
  }

  // ---------------------------------------------------------------------
  // File selection

  /** The `File` the user picked: its name, MIME type and size in bytes. */
  datatype AudioFile = AudioFile(name: string, mimeType: string, size: nat)

  /** How handleFileSelect ended. */
  datatype Selection = NoFile | WrongType | TooLarge | Accepted

  const ValidTypes: seq<string> := ["audio/mpeg", "audio/ogg", "audio/wav", "audio/mp4", "audio/x-m4a", "audio/mp3"]
  const ValidExtensions: seq<string> := [".mp3", ".wav", ".ogg", ".m4a"]
  const MaxFileSize: nat := 25 * 1024 * 1024

  /** `'.' + name.split('.').pop().toLowerCase()`: the text after the last dot, or the whole name when it has none. */
  function Extension(name: string): string {
    var parts := Split(name, '.');
    "." + Lower(parts[|parts| - 1])
  }

  /** The extension of `stem.ext` is `.ext` lowercased, whatever the stem holds. */
  lemma ExtensionOfDotted(stem: string, ext: string)
    requires '.' !in ext
    ensures Extension(stem + "." + ext) == "." + Lower(ext)
  {
    SplitConcat(stem, ext, '.');
    SplitWithoutSep(ext, '.');
  }

  /** The result of handleFileSelect: the type test, then the size test. */
  function Check(file: Option<AudioFile>): (r: Selection)
    ensures r == NoFile <==> file.None?
    ensures r == Accepted <==> (file.Some? && (file.value.mimeType in ValidTypes || Extension(file.value.name) in ValidExtensions) &&
      file.value.size <= MaxFileSize)
    ensures r == TooLarge ==> file.value.size > MaxFileSize
  {
    match file
    case None => NoFile
    case Some(f) =>
      if f.mimeType !in ValidTypes && Extension(f.name) !in ValidExtensions then WrongType
      else if f.size > MaxFileSize then TooLarge
      else Accepted
  }

  /** A file of at most 25 MiB named `stem.MP3` (any case) passes, whatever MIME type the browser gives it. */
  lemma Mp3NameAccepted(stem: string, ext: string, mimeType: string, size: nat)
    requires Lower(ext) == "mp3" && size <= MaxFileSize
    ensures Check(Some(AudioFile(stem + "." + ext, mimeType, size))) == Accepted
  {
    forall k | 0 <= k < |ext|
      ensures ext[k] != '.'
    {
      assert Lower(ext)[k] == LowerChar(ext[k]);
    }
    ExtensionOfDotted(stem, ext);
    assert Extension(stem + "." + ext) == ValidExtensions[0];
  }

  // ---------------------------------------------------------------------
  // The page's state

  class UploadPage {
    var lastProgressValue: real
    var currentFile: Option<AudioFile>
    var currentJobId: Option<string>
    /** The text of the progress bar's caption. */
    var progressText: string

    /** The bar stays within [0, 100]. */
    ghost predicate Valid()
      reads this
    {
      0.0 <= lastProgressValue <= 100.0
    }

    /** The page as loaded: no file, no job, an empty bar; the caption is whatever the page's markup holds. */
    constructor(caption: string)
      ensures Valid() && lastProgressValue == 0.0 && currentFile == None && currentJobId == None && progressText == caption
    {
      lastProgressValue := 0.0;
      currentFile := None;
      currentJobId := None;
      progressText := caption;
    }

    /** updateProgress: the bar moves to the clamped value unless it is already further; a non-empty text replaces the caption. */
    method UpdateProgress(percent: real, text: string)
      requires Valid()
      modifies this
      ensures Valid()
      ensures lastProgressValue == Advance(old(lastProgressValue), percent)
      ensures progressText == if text != "" then text else old(progressText)
      ensures currentFile == old(currentFile) && currentJobId == old(currentJobId)
    {
      var atLeastZero := if percent > 0.0 then percent else 0.0;
      var clamped := if atLeastZero < 100.0 then atLeastZero else 100.0;
      lastProgressValue := if lastProgressValue > clamped then lastProgressValue else clamped;
      if text != "" {
        progressText := text;
      }
    }

    /** resetForm: forget the file and the job and empty the bar. */
    method ResetForm()
      requires Valid()
      modifies this
      ensures Valid()
      ensures currentFile == None && currentJobId == None && lastProgressValue == 0.0
      ensures progressText == "Ждём загрузку аудио..."
    {
      currentFile := None;
      currentJobId := None;
      lastProgressValue := 0.0;
      UpdateProgress(0.0, "Ждём загрузку аудио...");
    }

    /**
     * handleFileSelect: with a file the bar is emptied, and the file is kept
     * only when it passes both tests; without one nothing changes.
     */
    method HandleFileSelect(file: Option<AudioFile>) returns (r: Selection)
      requires Valid()
      modifies this
      ensures Valid()
      ensures r == Check(file)
      ensures lastProgressValue == if file.None? then old(lastProgressValue) else 0.0
      ensures currentFile == if r == Accepted then file else old(currentFile)
      ensures currentJobId == old(currentJobId) && progressText == old(progressText)
    {
      if file.None? {
        return NoFile;
      }
      var f := file.value;
      lastProgressValue := 0.0;
      var fileExtension := "." + Lower(Split(f.name, '.')[|Split(f.name, '.')| - 1]);
      if !(f.mimeType in ValidTypes) && !(fileExtension in ValidExtensions) {
        return WrongType;
      }
      if f.size > 25 * 1024 * 1024 {
        return TooLarge;
      }
      currentFile := file;
      r := Accepted;
    }

    /** handleJobResponse: move the bar and caption by the reply, then decide whether polling goes on. */
    method HandleJobResponse(job: JobReply) returns (r: PollStep)
      requires Valid()
      modifies this
      ensures Valid()
      ensures r == PollOutcome(job)
      ensures lastProgressValue == Advance(old(lastProgressValue), ReportedProgress(job, old(lastProgressValue)))
      ensures progressText == StatusText(ReplyStatus(job), ReportedProgress(job, old(lastProgressValue)))
      ensures currentFile == old(currentFile) && currentJobId == old(currentJobId)
    {
      var rawProgress := if job.progress.Some? then job.progress.value else DeriveProgress(job.status, lastProgressValue);
      var progress := if job.status == Some("completed") then 100.0 else rawProgress;
      var status := if job.status.Some? && job.status.value != "" then job.status.value else "processing";
      var statusText := StatusText(status, progress);
      assert statusText != "";
      UpdateProgress(progress, statusText);
      if status == "completed" {
        return Done(job);
      }
      if status == "failed" {
        return Raised(if job.error.Some? && job.error.value != "" then job.error.value else ServerError);
      }
      r := Continue;
    }
  }

  /** A completed reply fills the bar, and a reply never empties it. */
  lemma CompletedFillsBar(last: real, job: JobReply)
    requires 0.0 <= last <= 100.0
    ensures Advance(last, ReportedProgress(job, last)) >= last
    ensures job.status == Some("completed") ==> Advance(last, ReportedProgress(job, last)) == 100.0
    ensures job.progress.None? && job.status.Some? && job.status.value !in StatusProgress ==>
      Advance(last, ReportedProgress(job, last)) == last
  {
  }

  // ---------------------------------------------------------------------
  // Server errors

  /** JavaScript truthiness of a JSON value. */
  predicate Truthy(v: Json) {
    match v
    case JNull => false
    case JBool(b) => b
    case JInt(i) => i != 0
    case JFloat(f) => f != 0.0
    case JStr(s) => s != ""
    case _ => true
  }

  /** `v.key`: None where JavaScript gives undefined. */
  function Prop(v: Json, key: string): Option<Json> {
    if v.JObj? && key in v.fields then Some(v.fields[key]) else None
  }

  /** `a ?? b`. */
  function Coalesce(a: Option<Json>, b: Option<Json>): Option<Json> {
    if a.Some? && !a.value.JNull? then a else b
  }

  /** String(v): a string is itself; other values are rendered by `toText`. */
  function Display(v: Json, toText: Json -> string): string {
    if v.JStr? then v.s else toText(v)
  }

  /** What normalizeServerError throws by itself: a TypeError from reading property `key` of null. */
  datatype JsError = NullProperty(key: string)

  /** One element of an array detail: its `msg`, else its `message`, else the element as JSON; `item.msg` on null throws. */
  function ItemMessage(item: Json, stringify: Json -> string, toText: Json -> string): (r: Result<string, JsError>)
    ensures r.Err? <==> item.JNull?
  {
    if item.JNull? then Err(NullProperty("msg"))
    else
      var msg := Prop(item, "msg");
      var message := Prop(item, "message");
      if msg.Some? && Truthy(msg.value) then Ok(Display(msg.value, toText))
      else if message.Some? && Truthy(message.value) then Ok(Display(message.value, toText))
      else Ok(stringify(item))
  }

  /** `detail.map(...)`: the elements' messages in order, or the throw of the first element that throws. */
  function ItemMessages(items: seq<Json>, stringify: Json -> string, toText: Json -> string): Result<seq<string>, JsError>
    decreases |items|
  {
    if items == [] then Ok([])
    else match ItemMessage(items[0], stringify, toText)
      case Err(e) => Err(e)
      case Ok(m) =>
        match ItemMessages(items[1..], stringify, toText)
        case Err(e) => Err(e)
        case Ok(ms) => Ok([m] + ms)
  }

  /** The map throws exactly when some element is null; otherwise message k is element k's. */
  lemma {:induction false} ItemMessagesAll(items: seq<Json>, stringify: Json -> string, toText: Json -> string)
    ensures ItemMessages(items, stringify, toText).Err? <==> JNull in items
    ensures ItemMessages(items, stringify, toText).Ok? ==> (var ms := ItemMessages(items, stringify, toText).value;
      |ms| == |items| && forall k :: 0 <= k < |items| ==> ms[k] == ItemMessage(items[k], stringify, toText).value)
    decreases |items|
  {
    if items != [] {
      ItemMessagesAll(items[1..], stringify, toText);
      assert items == [items[0]] + items[1..];
      assert JNull in items <==> items[0] == JNull || JNull in items[1..];
    }
  }

  /**
   * normalizeServerError, given JSON.stringify as `stringify` and String()
   * as `toText` (for values that are not strings): the text of the Error
   * the page throws, or the TypeError normalizeServerError throws itself.
   */
  function ServerMessage(payload: Json, statusCode: nat, stringify: Json -> string, toText: Json -> string)
    : Result<string, JsError>
  {
    if !Truthy(payload) then Ok("HTTP " + NatToString(statusCode))
    else
      var detail := Coalesce(Coalesce(Prop(payload, "detail"), Prop(payload, "message")), Prop(payload, "error"));
      if detail.None? || !Truthy(detail.value) then Ok(stringify(payload))
      else match detail.value
        case JArr(items) =>
          (match ItemMessages(items, stringify, toText)
           case Err(e) => Err(e)
           case Ok(ms) => Ok(Join(ms, "; ")))
        case JObj(_) => Ok(stringify(detail.value))
        case _ => Ok(Display(detail.value, toText))
  }

  /** A falsy payload gives `HTTP <code>`, and the code's digits follow the prefix. */
  lemma MissingPayload(payload: Json, statusCode: nat, stringify: Json -> string, toText: Json -> string)
    requires !Truthy(payload)
    ensures var m := ServerMessage(payload, statusCode, stringify, toText);
      m.Ok? && StartsWith(m.value, "HTTP ") && m.value[5..] == NatToString(statusCode)
  {
  }

  /**
   * The detail is looked up in the order detail, message, error: a textual
   * `detail` wins over the others, and a `message` is used only when
   * `detail` is missing or null.
   */
  lemma DetailOrder(fields: map<string, Json>, statusCode: nat, stringify: Json -> string, toText: Json -> string)
    ensures "detail" in fields && fields["detail"].JStr? && fields["detail"].s != "" ==>
      ServerMessage(JObj(fields), statusCode, stringify, toText) == Ok(fields["detail"].s)
    ensures (("detail" !in fields || fields["detail"] == JNull) && "message" in fields && fields["message"].JStr? &&
      fields["message"].s != "") ==>
      ServerMessage(JObj(fields), statusCode, stringify, toText) == Ok(fields["message"].s)
    ensures (("detail" !in fields || fields["detail"] == JNull) && ("message" !in fields || fields["message"] == JNull) &&
      "error" in fields && fields["error"].JStr? && fields["error"].s != "") ==>
      ServerMessage(JObj(fields), statusCode, stringify, toText) == Ok(fields["error"].s)
  {
  }

  /**
   * `??` stops at an empty `detail`: the payload is then shown as JSON even
   * when `message` holds a text.
   */
  lemma EmptyDetailHidesMessage(message: string, statusCode: nat, stringify: Json -> string, toText: Json -> string)
    ensures var payload := JObj(map["detail" := JStr(""), "message" := JStr(message)]);
      ServerMessage(payload, statusCode, stringify, toText) == Ok(stringify(payload))
  {
  }

  /**
   * An array detail (FastAPI's validation errors) becomes its elements'
   * messages joined by "; ", an element's textual `msg` first; a null
   * element makes normalizeServerError throw a TypeError instead.
   */
  lemma ArrayDetail(items: seq<Json>, statusCode: nat, stringify: Json -> string, toText: Json -> string)
    requires items != []
    ensures var r := ServerMessage(JObj(map["detail" := JArr(items)]), statusCode, stringify, toText);
      (r.Err? <==> JNull in items) && (r.Err? ==> r.error == NullProperty("msg"))
    ensures JNull !in items ==> exists ms: seq<string> ::
      ServerMessage(JObj(map["detail" := JArr(items)]), statusCode, stringify, toText) == Ok(Join(ms, "; "))
      && |ms| == |items| && forall k :: 0 <= k < |items| ==> Ok(ms[k]) == ItemMessage(items[k], stringify, toText)
    ensures forall k :: (0 <= k < |items| && Prop(items[k], "msg").Some? && Prop(items[k], "msg").value.JStr? &&
      Prop(items[k], "msg").value.s != "") ==>
      ItemMessage(items[k], stringify, toText) == Ok(Prop(items[k], "msg").value.s)
  {
    ItemMessagesAll(items, stringify, toText);
    if JNull in items {
      ItemMessagesFirstNull(items, stringify, toText);
    } else {
      var ms := ItemMessages(items, stringify, toText).value;
      assert forall k :: 0 <= k < |items| ==> Ok(ms[k]) == ItemMessage(items[k], stringify, toText);
    }
  }

  /** Every throw of the map is the null read of `msg`. */
  lemma {:induction false} ItemMessagesFirstNull(items: seq<Json>, stringify: Json -> string, toText: Json -> string)
    ensures ItemMessages(items, stringify, toText).Err? ==> ItemMessages(items, stringify, toText).error == NullProperty("msg")
    decreases |items|
  {
    if items != [] {
      ItemMessagesFirstNull(items[1..], stringify, toText);
    }
  }
}
