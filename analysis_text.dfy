/**
 * The line-oriented reading of the language model's analysis text, shared
 * by the Word and Excel generators: the `## Header` sections and the
 * `Задача:` / `Дедлайн:` / `Ответственный:` / `Приоритет:` task records.
 *
 * The generators run these as loops over the lines (word_generator.dfy,
 * excel_generator.dfy). Here each loop is specified in two layers: a
 * function that reads ONE line into a small datatype (which branch of the
 * loop body the line takes), and a function that consumes the read lines
 * from a scan state. The lemmas say what the scans compute in terms that do
 * not mention the scan.
 */
module AnalysisText {
  import opened Wrappers
  import opened Text
  import opened Seqs

  const TaskMarker := "Задача:"
  const DeadlineMarker := "Дедлайн:"
  const AssigneeMarker := "Ответственный:"
  const PriorityMarker := "Приоритет:"
  /** Default deadline and assignee of a parsed task. */
  const NotSpecified := "Не указан"
  /** Default priority of a parsed task. */
  const DefaultPriority := "Средний"
  /** What extract_section returns when it collects nothing. */
  const NotFound := "Не найдено"

  /** `text.split('\n')`. */
  function Lines(text: string): seq<string> {
    Split(text, '\n')
  }

  /** The lines of two texts joined by a newline are the lines of each. */
  lemma LinesConcat(a: string, b: string)
    ensures Lines(a + "\n" + b) == Lines(a) + Lines(b)
  {
    SplitConcat(a, b, '\n');
  }

  /** Regrouping a concatenation of four sequences to the right. */
  lemma Regroup<T>(a: seq<T>, b: seq<T>, c: seq<T>, d: seq<T>)
    ensures a + b + c + d == a + (b + (c + d))
  {
  }

  lemma Regroup5<T>(a: seq<T>, b: seq<T>, c: seq<T>, d: seq<T>, e: seq<T>)
    ensures a + b + c + d + e == a + b + (c + d + e)
  {
  }

  /** The stripped, non-empty lines of `lines`, in order. */
  function NonBlank(lines: seq<string>): seq<string>
    decreases |lines|
  {
    if lines == [] then []
    else (if Strip(lines[0]) != "" then [Strip(lines[0])] else []) + NonBlank(lines[1..])
  }

  /** Every element is non-empty and already stripped. */
  predicate Clean(xs: seq<string>) {
    forall k :: 0 <= k < |xs| ==> xs[k] != "" && Strip(xs[k]) == xs[k]
  }

  // ---------------------------------------------------------------------
  // Tasks: parse_tasks_from_analysis

  /** A task as the parser builds it: every field present. */
  datatype ParsedTask = ParsedTask(description: string, deadline: string, assignee: string, priority: string)

  predicate IsTaskLine(line: string) {
    Contains(line, TaskMarker)
  }

  /** `line.split(marker)[1].strip()`; only ever applied to a line holding the marker. */
  function FieldValue(line: string, marker: string): string {
    if |marker| > 0 && Contains(line, marker) then Strip(TextAfter(line, marker)) else ""
  }

  /** The record a `Задача:` line opens. */
  function NewTask(line: string): ParsedTask {
    ParsedTask(FieldValue(line, TaskMarker), NotSpecified, NotSpecified, DefaultPriority)
  }

  datatype Field = Deadline | Assignee | Priority

  function MarkerOf(f: Field): string {
    match f
    case Deadline => DeadlineMarker
    case Assignee => AssigneeMarker
    case Priority => PriorityMarker
  }

  /**
   * The field a line inside a task sets. The source tests the markers in an
   * elif chain, so a line holding several markers sets only the first of
   * deadline, assignee, priority.
   */
  function FieldOf(line: string): (r: Option<Field>)
    ensures r.Some? ==> Contains(line, MarkerOf(r.value))
    ensures r == Some(Deadline) <==> Contains(line, DeadlineMarker)
    ensures r == Some(Assignee) <==> Contains(line, AssigneeMarker) && !Contains(line, DeadlineMarker)
    ensures r == Some(Priority) <==>
      Contains(line, PriorityMarker) && !Contains(line, AssigneeMarker) && !Contains(line, DeadlineMarker)
  {
    if Contains(line, DeadlineMarker) then Some(Deadline)
    else if Contains(line, AssigneeMarker) then Some(Assignee)
    else if Contains(line, PriorityMarker) then Some(Priority)
    else None
  }

  /** The branch of the task loop a line takes: it opens a task, sets a field of the open task, or neither. */
  datatype TaskLine = Opens(description: string) | Sets(field: Field, value: string) | Other

  /** A `Задача:` line always opens a task, even if it also holds a field marker. */
  function ReadTaskLine(line: string): (r: TaskLine)
    ensures r.Opens? <==> IsTaskLine(line)
    ensures r.Sets? <==> !IsTaskLine(line) && FieldOf(line).Some?
  {
    if IsTaskLine(line) then Opens(FieldValue(line, TaskMarker))
    else match FieldOf(line)
      case Some(f) => Sets(f, FieldValue(line, MarkerOf(f)))
      case None => Other
  }

  /** The reading of a line, stated with the tests of the task loop in the order it makes them. */
  lemma TaskLineCases(line: string)
    ensures Contains(line, TaskMarker) ==> ReadTaskLine(line) == Opens(Strip(TextAfter(line, TaskMarker)))
    ensures !Contains(line, TaskMarker) && Contains(line, DeadlineMarker) ==>
      ReadTaskLine(line) == Sets(Deadline, Strip(TextAfter(line, DeadlineMarker)))
    ensures !Contains(line, TaskMarker) && !Contains(line, DeadlineMarker) && Contains(line, AssigneeMarker) ==>
      ReadTaskLine(line) == Sets(Assignee, Strip(TextAfter(line, AssigneeMarker)))
    ensures (!Contains(line, TaskMarker) && !Contains(line, DeadlineMarker) && !Contains(line, AssigneeMarker) &&
      Contains(line, PriorityMarker)) ==> ReadTaskLine(line) == Sets(Priority, Strip(TextAfter(line, PriorityMarker)))
    ensures (!Contains(line, TaskMarker) && !Contains(line, DeadlineMarker) && !Contains(line, AssigneeMarker) &&
      !Contains(line, PriorityMarker)) ==> ReadTaskLine(line) == Other
  {
  }

  function ReadTaskLines(lines: seq<string>): (r: seq<TaskLine>)
    ensures |r| == |lines|
  {
    Map(ReadTaskLine, lines)
  }

  /** Lines without `Задача:` open no task. */
  lemma ReadTaskLinesNoOpening(lines: seq<string>)
    requires forall k :: 0 <= k < |lines| ==> !IsTaskLine(lines[k])
    ensures forall k :: 0 <= k < |lines| ==> !ReadTaskLines(lines)[k].Opens?
  {
    forall k | 0 <= k < |lines|
      ensures !ReadTaskLines(lines)[k].Opens?
    {
      assert ReadTaskLines(lines)[k] == ReadTaskLine(lines[k]);
    }
  }

  lemma ReadTaskLinesConcat(a: seq<string>, b: seq<string>)
    ensures ReadTaskLines(a + b) == ReadTaskLines(a) + ReadTaskLines(b)
  {
    MapConcat(ReadTaskLine, a, b);
  }

  function Set(t: ParsedTask, f: Field, v: string): ParsedTask {
    match f
    case Deadline => t.(deadline := v)
    case Assignee => t.(assignee := v)
    case Priority => t.(priority := v)
  }

  /** The update a line that does not open a task makes to the open task. */
  function ApplyField(t: ParsedTask, l: TaskLine): ParsedTask {
    if l.Sets? then Set(t, l.field, l.value) else t
  }

  /** The open task after the lines `ls`, none of which opens a task, applied in order. */
  function FillFields(t: ParsedTask, ls: seq<TaskLine>): ParsedTask
    decreases |ls|
  {
    if ls == [] then t else FillFields(ApplyField(t, ls[0]), ls[1..])
  }

  /** Reference definition: the value the LAST line of `ls` setting `f` gives, else `default`. */
  function LastValue(ls: seq<TaskLine>, f: Field, default: string): string
    decreases |ls|
  {
    if ls == [] then default
    else
      var last := ls[|ls| - 1];
      if last.Sets? && last.field == f then last.value
      else LastValue(ls[..|ls| - 1], f, default)
  }

  lemma {:induction false} LastValueCons(x: TaskLine, ls: seq<TaskLine>, f: Field, default: string)
    ensures LastValue([x] + ls, f, default) == LastValue(ls, f, LastValue([x], f, default))
    decreases |ls|
  {
    if ls == [] {
      assert [x] + ls == [x];
    } else {
      var n := |ls| - 1;
      assert ([x] + ls)[..|[x] + ls| - 1] == [x] + ls[..n];
      LastValueCons(x, ls[..n], f, default);
    }
  }

  /**
   * Later field lines overwrite earlier ones: after the field lines of a
   * task, each field holds the value of the last line that sets it, or what
   * it held before; the description is never changed.
   */
  lemma {:induction false} FillFieldsLastWins(t: ParsedTask, ls: seq<TaskLine>)
    ensures FillFields(t, ls) == ParsedTask(
      t.description,
      LastValue(ls, Deadline, t.deadline),
      LastValue(ls, Assignee, t.assignee),
      LastValue(ls, Priority, t.priority))
    decreases |ls|
  {
    if ls != [] {
      var x, rest := ls[0], ls[1..];
      FillFieldsLastWins(ApplyField(t, x), rest);
      assert [x][..0] == [];
      assert ls == [x] + rest;
      LastValueCons(x, rest, Deadline, t.deadline);
      LastValueCons(x, rest, Assignee, t.assignee);
      LastValueCons(x, rest, Priority, t.priority);
    }
  }

  /** The loop state of parse_tasks_from_analysis: the open task and the finished ones. */
  datatype TaskScan = TaskScan(current: Option<ParsedTask>, done: seq<ParsedTask>)

  /** The finished tasks plus the open one, as appended after the loop. */
  function Flush(st: TaskScan): seq<ParsedTask> {
    st.done + (if st.current.Some? then [st.current.value] else [])
  }

  /** One iteration of the loop. */
  function TaskStep(st: TaskScan, l: TaskLine): TaskScan {
    if l.Opens? then TaskScan(Some(ParsedTask(l.description, NotSpecified, NotSpecified, DefaultPriority)), Flush(st))
    else if st.current.Some? then TaskScan(Some(ApplyField(st.current.value, l)), st.done)
    else st
  }

  /** The tasks returned when the loop runs over the read lines `ls` from state `st`. */
  function ScanTasks(ls: seq<TaskLine>, st: TaskScan): seq<ParsedTask>
    decreases |ls|
  {
    if ls == [] then Flush(st) else ScanTasks(ls[1..], TaskStep(st, ls[0]))
  }

  const NoTask := TaskScan(None, [])

  /** One step of the scan from position `i`. */
  lemma ScanTasksAt(ls: seq<TaskLine>, i: nat, st: TaskScan)
    requires i < |ls|
    ensures ScanTasks(ls[i..], st) == ScanTasks(ls[i + 1..], TaskStep(st, ls[i]))
  {
    assert ls[i..][1..] == ls[i + 1..];
  }

  /** parse_tasks_from_analysis. */
  function ParseTasks(analysis: string): seq<ParsedTask> {
    ScanTasks(ReadTaskLines(Lines(analysis)), NoTask)
  }

  /** The lines that contain `Задача:`, in order. */
  function TaskLines(lines: seq<string>): (r: seq<string>)
    ensures forall k :: 0 <= k < |r| ==> IsTaskLine(r[k])
    decreases |lines|
  {
    if lines == [] then []
    else (if IsTaskLine(lines[0]) then [lines[0]] else []) + TaskLines(lines[1..])
  }

  function Descriptions(ts: seq<ParsedTask>): seq<string> {
    seq(|ts|, k requires 0 <= k < |ts| => ts[k].description)
  }

  /** The descriptions the opening lines give, in order. */
  function Openings(ls: seq<TaskLine>): seq<string>
    decreases |ls|
  {
    if ls == [] then [] else (if ls[0].Opens? then [ls[0].description] else []) + Openings(ls[1..])
  }

  lemma {:induction false} ScanTasksDescriptions(ls: seq<TaskLine>, st: TaskScan)
    ensures Descriptions(ScanTasks(ls, st)) == Descriptions(Flush(st)) + Openings(ls)
    decreases |ls|
  {
    if ls != [] {
      var st' := TaskStep(st, ls[0]);
      ScanTasksDescriptions(ls[1..], st');
      if ls[0].Opens? {
        assert Descriptions(Flush(st')) == Descriptions(Flush(st)) + [ls[0].description];
      } else if st.current.Some? {
        assert Descriptions(Flush(st')) == Descriptions(Flush(st));
      }
    }
  }

  lemma {:induction false} OpeningsOfLines(lines: seq<string>)
    ensures |Openings(ReadTaskLines(lines))| == |TaskLines(lines)|
    ensures forall k :: 0 <= k < |TaskLines(lines)| ==>
      Openings(ReadTaskLines(lines))[k] == FieldValue(TaskLines(lines)[k], TaskMarker)
    decreases |lines|
  {
    if lines != [] {
      OpeningsOfLines(lines[1..]);
      MapCons(ReadTaskLine, lines);
      assert ReadTaskLines(lines) == [ReadTaskLine(lines[0])] + ReadTaskLines(lines[1..]);
    }
  }

  /**
   * parse_tasks_from_analysis returns exactly one task per line containing
   * `Задача:`, in line order, and the k-th task's description is the
   * stripped text after the first marker on the k-th such line (up to the
   * next marker or the line end, TextAfter).
   */
  lemma ParseTasksFollowTaskLines(analysis: string)
    ensures |ParseTasks(analysis)| == |TaskLines(Lines(analysis))|
    ensures forall k :: 0 <= k < |ParseTasks(analysis)| ==>
      ParseTasks(analysis)[k].description == FieldValue(TaskLines(Lines(analysis))[k], TaskMarker)
  {
    var lines := Lines(analysis);
    var ls, tasks, tl := ReadTaskLines(lines), ParseTasks(analysis), TaskLines(lines);
    assert tasks == ScanTasks(ls, NoTask);
    ScanTasksDescriptions(ls, NoTask);
    assert Flush(NoTask) == [];
    var ds := Descriptions(tasks);
    assert ds == Openings(ls);
    OpeningsOfLines(lines);
    assert |tasks| == |ds| == |tl|;
    forall k | 0 <= k < |tasks|
      ensures tasks[k].description == FieldValue(tl[k], TaskMarker)
    {
      assert ds[k] == tasks[k].description;
    }
  }

  /** Finished tasks pass through the scan unchanged, ahead of everything else. */
  lemma {:induction false} ScanTasksKeepsDone(ls: seq<TaskLine>, c: Option<ParsedTask>, d: seq<ParsedTask>)
    ensures ScanTasks(ls, TaskScan(c, d)) == d + ScanTasks(ls, TaskScan(c, []))
    decreases |ls|
  {
    if ls == [] {
      assert Flush(TaskScan(c, d)) == d + Flush(TaskScan(c, []));
    } else {
      var s1, s2 := TaskStep(TaskScan(c, d), ls[0]), TaskStep(TaskScan(c, []), ls[0]);
      assert s1 == TaskScan(s2.current, d + s2.done);
      assert s2 == TaskScan(s2.current, s2.done);
      var x := ScanTasks(ls[1..], TaskScan(s2.current, []));
      ScanTasksKeepsDone(ls[1..], s2.current, d + s2.done);
      ScanTasksKeepsDone(ls[1..], s2.current, s2.done);
      assert (d + s2.done) + x == d + (s2.done + x);
    }
  }

  lemma {:induction false} ScanTasksConcat(a: seq<TaskLine>, b: seq<TaskLine>, st: TaskScan)
    requires b == [] || b[0].Opens?
    ensures ScanTasks(a + b, st) == ScanTasks(a, st) + ScanTasks(b, NoTask)
    decreases |a|
  {
    if a == [] {
      assert a + b == b;
      if b != [] {
        var t := ParsedTask(b[0].description, NotSpecified, NotSpecified, DefaultPriority);
        ScanTasksKeepsDone(b[1..], Some(t), Flush(st));
      }
    } else {
      assert (a + b)[0] == a[0] && (a + b)[1..] == a[1..] + b;
      ScanTasksConcat(a[1..], b, TaskStep(st, a[0]));
    }
  }

  /**
   * Cutting the text just before a task line cuts the result: the tasks of
   * `a + "\n" + b` are those of `a` followed by those of `b` when the first
   * line of `b` contains `Задача:`. In particular a task never spans that
   * cut, whatever field lines end `a`.
   */
  lemma ParseTasksConcat(a: string, b: string)
    requires IsTaskLine(Lines(b)[0])
    ensures ParseTasks(a + "\n" + b) == ParseTasks(a) + ParseTasks(b)
  {
    LinesConcat(a, b);
    ReadTaskLinesConcat(Lines(a), Lines(b));
    MapCons(ReadTaskLine, Lines(b));
    ScanTasksConcat(ReadTaskLines(Lines(a)), ReadTaskLines(Lines(b)), NoTask);
  }

  lemma {:induction false} ScanTasksIdle(ls: seq<TaskLine>, d: seq<ParsedTask>)
    requires forall k :: 0 <= k < |ls| ==> !ls[k].Opens?
    ensures ScanTasks(ls, TaskScan(None, d)) == d
    decreases |ls|
  {
    if ls != [] {
      ScanTasksIdle(ls[1..], d);
    }
  }

  /**
   * Without a line containing `Задача:` there are no tasks: field lines
   * before the first task line are ignored.
   */
  lemma ParseTasksWithoutTaskLine(analysis: string)
    requires forall k :: 0 <= k < |Lines(analysis)| ==> !IsTaskLine(Lines(analysis)[k])
    ensures ParseTasks(analysis) == []
  {
    var ls := ReadTaskLines(Lines(analysis));
    assert forall k :: 0 <= k < |ls| ==> ls[k] == ReadTaskLine(Lines(analysis)[k]);
    ScanTasksIdle(ls, []);
  }

  lemma {:induction false} ScanTasksFields(t: ParsedTask, ls: seq<TaskLine>)
    requires forall k :: 0 <= k < |ls| ==> !ls[k].Opens?
    ensures ScanTasks(ls, TaskScan(Some(t), [])) == [FillFields(t, ls)]
    decreases |ls|
  {
    if ls != [] {
      ScanTasksFields(ApplyField(t, ls[0]), ls[1..]);
    }
  }

  /**
   * A task line followed by lines without `Задача:` gives exactly one task:
   * it starts from the description with deadline and assignee `Не указан`
   * and priority `Средний`, and the following lines fill it in
   * (FillFieldsLastWins: the last line setting a field wins).
   */
  lemma ParseTaskBlock(line: string, rest: string)
    requires IsTaskLine(line) && '\n' !in line
    requires forall k :: 0 <= k < |Lines(rest)| ==> !IsTaskLine(Lines(rest)[k])
    ensures NewTask(line).deadline == NotSpecified && NewTask(line).assignee == NotSpecified
    ensures NewTask(line).priority == DefaultPriority
    ensures ParseTasks(line + "\n" + rest) == [FillFields(NewTask(line), ReadTaskLines(Lines(rest)))]
  {
    LinesConcat(line, rest);
    SplitWithoutSep(line, '\n');
    var ls := ReadTaskLines(Lines(line) + Lines(rest));
    ReadTaskLinesConcat(Lines(line), Lines(rest));
    MapCons(ReadTaskLine, [line]);
    assert ReadTaskLines([line]) == [ReadTaskLine(line)];
    assert ls[0] == Opens(FieldValue(line, TaskMarker));
    assert ls[1..] == ReadTaskLines(Lines(rest));
    assert ParseTasks(line + "\n" + rest) == ScanTasks(ls, NoTask);
    assert Flush(NoTask) == [];
    assert TaskStep(NoTask, ls[0]) == TaskScan(Some(NewTask(line)), []);
    ReadTaskLinesNoOpening(Lines(rest));
    ScanTasksFields(NewTask(line), ReadTaskLines(Lines(rest)));
  }

  // ---------------------------------------------------------------------
  // One section: extract_section

  /** The header test: the name occurs case-insensitively and the line holds a `#`. */
  predicate IsSectionHeader(line: string, name: string) {
    Contains(Lower(line), Lower(name)) && Contains(line, "#")
  }

  /** A line that, once stripped, starts with `##`. */
  predicate IsSubheading(line: string) {
    StartsWith(Strip(line), "##")
  }

  /** The branch of the extract_section loop a line takes. */
  datatype SectionLine = Header | Stop | Keep(text: string) | Skip

  function ReadSectionLine(line: string, name: string): (r: SectionLine)
    ensures r.Header? <==> IsSectionHeader(line, name)
    ensures r.Stop? <==> !IsSectionHeader(line, name) && IsSubheading(line)
    ensures r.Keep? ==> r.text == Strip(line) && Clean([r.text])
  {
    if IsSectionHeader(line, name) then Header
    else if IsSubheading(line) then Stop
    else if Strip(line) != "" then (StripIdempotent(line); Keep(Strip(line)))
    else Skip
  }

  /** The reading of a line, stated with the tests of the section loop in the order it makes them. */
  lemma SectionLineCases(line: string, name: string)
    ensures Contains(Lower(line), Lower(name)) && Contains(line, "#") ==> ReadSectionLine(line, name) == Header
    ensures !(Contains(Lower(line), Lower(name)) && Contains(line, "#")) && StartsWith(Strip(line), "##") ==>
      ReadSectionLine(line, name) == Stop
    ensures (!(Contains(Lower(line), Lower(name)) && Contains(line, "#")) && !StartsWith(Strip(line), "##") &&
      Strip(line) != "") ==> ReadSectionLine(line, name) == Keep(Strip(line))
    ensures (!(Contains(Lower(line), Lower(name)) && Contains(line, "#")) && !StartsWith(Strip(line), "##") &&
      Strip(line) == "") ==> ReadSectionLine(line, name) == Skip
  {
  }

  lemma PlainSectionLine(line: string, name: string)
    requires !IsSectionHeader(line, name) && !IsSubheading(line)
    ensures ReadSectionLine(line, name).Keep? || ReadSectionLine(line, name).Skip?
  {
  }

  function ReadSectionLines(lines: seq<string>, name: string): (r: seq<SectionLine>)
    ensures |r| == |lines|
  {
    Map(line => ReadSectionLine(line, name), lines)
  }

  lemma ReadSectionLinesConcat(a: seq<string>, b: seq<string>, name: string)
    ensures ReadSectionLines(a + b, name) == ReadSectionLines(a, name) + ReadSectionLines(b, name)
  {
    MapConcat(line => ReadSectionLine(line, name), a, b);
  }

  /** The lines extract_section collects, `inSection` telling whether a header was seen. */
  function SectionBody(ls: seq<SectionLine>, inSection: bool): seq<string>
    decreases |ls|
  {
    if ls == [] then []
    else match ls[0]
      case Header => SectionBody(ls[1..], true)
      case Stop => if inSection then [] else SectionBody(ls[1..], inSection)
      case Keep(s) => (if inSection then [s] else []) + SectionBody(ls[1..], inSection)
      case Skip => SectionBody(ls[1..], inSection)
  }

  /** One step of the collection from position `i`. */
  lemma SectionBodyAt(ls: seq<SectionLine>, i: nat, inSection: bool)
    requires i < |ls|
    ensures SectionBody(ls[i..], inSection) ==
      match ls[i]
      case Header => SectionBody(ls[i + 1..], true)
      case Stop => if inSection then [] else SectionBody(ls[i + 1..], inSection)
      case Keep(s) => (if inSection then [s] else []) + SectionBody(ls[i + 1..], inSection)
      case Skip => SectionBody(ls[i + 1..], inSection)
  {
    assert ls[i..][1..] == ls[i + 1..];
  }

  /** The collected lines before position `i` plus what the rest collects, one line on. */
  lemma SectionBodyStep(result: seq<string>, ls: seq<SectionLine>, i: nat, inSection: bool)
    requires i < |ls| && !(inSection && ls[i].Stop?)
    ensures (result + (if inSection && ls[i].Keep? then [ls[i].text] else []))
      + SectionBody(ls[i + 1..], inSection || ls[i].Header?) == result + SectionBody(ls[i..], inSection)
  {
    SectionBodyAt(ls, i, inSection);
    var rest := SectionBody(ls[i + 1..], inSection || ls[i].Header?);
    var added := if inSection && ls[i].Keep? then [ls[i].text] else [];
    assert SectionBody(ls[i..], inSection) == added + rest;
    assert (result + added) + rest == result + (added + rest);
  }

  /** extract_section. */
  function SectionText(text: string, name: string): string {
    var body := SectionBody(ReadSectionLines(Lines(text), name), false);
    if body != [] then Join(body, "\n") else NotFound
  }

  lemma {:induction false} SectionBodyClean(ls: seq<SectionLine>, inSection: bool)
    requires forall k :: 0 <= k < |ls| ==> ls[k].Keep? ==> Clean([ls[k].text])
    ensures Clean(SectionBody(ls, inSection))
    decreases |ls|
  {
    if ls != [] {
      SectionBodyClean(ls[1..], inSection);
      SectionBodyClean(ls[1..], true);
      if ls[0].Keep? {
        assert Clean([ls[0].text]);
      }
    }
  }

  /** The lines extract_section collects are stripped and non-empty. */
  lemma SectionLinesClean(text: string, name: string)
    ensures Clean(SectionBody(ReadSectionLines(Lines(text), name), false))
  {
    var lines := Lines(text);
    var ls := ReadSectionLines(lines, name);
    forall k | 0 <= k < |ls| && ls[k].Keep?
      ensures Clean([ls[k].text])
    {
      assert ls[k] == ReadSectionLine(lines[k], name);
    }
    SectionBodyClean(ls, false);
  }

  lemma {:induction false} SectionBodyIdle(ls: seq<SectionLine>)
    requires forall k :: 0 <= k < |ls| ==> !ls[k].Header?
    ensures SectionBody(ls, false) == []
    decreases |ls|
  {
    if ls != [] {
      SectionBodyIdle(ls[1..]);
    }
  }

  /** With no header line at all the result is `Не найдено`. */
  lemma SectionTextWithoutHeader(text: string, name: string)
    requires forall k :: 0 <= k < |Lines(text)| ==> !IsSectionHeader(Lines(text)[k], name)
    ensures SectionText(text, name) == NotFound
  {
    var ls := ReadSectionLines(Lines(text), name);
    assert forall k :: 0 <= k < |ls| ==> ls[k] == ReadSectionLine(Lines(text)[k], name);
    SectionBodyIdle(ls);
  }

  lemma {:induction false} SectionBodySkips(ls: seq<SectionLine>, rest: seq<SectionLine>)
    requires forall k :: 0 <= k < |ls| ==> !ls[k].Header?
    ensures SectionBody(ls + rest, false) == SectionBody(rest, false)
    decreases |ls|
  {
    if ls == [] {
      assert ls + rest == rest;
    } else {
      assert (ls + rest)[0] == ls[0] && (ls + rest)[1..] == ls[1..] + rest;
      SectionBodySkips(ls[1..], rest);
    }
  }

  lemma {:induction false} SectionBodyCollects(ls: seq<SectionLine>, rest: seq<SectionLine>)
    requires forall k :: 0 <= k < |ls| ==> ls[k].Keep? || ls[k].Skip?
    ensures SectionBody(ls + rest, true) == SectionBody(ls, true) + SectionBody(rest, true)
    decreases |ls|
  {
    if ls == [] {
      assert ls + rest == rest;
    } else {
      assert (ls + rest)[0] == ls[0] && (ls + rest)[1..] == ls[1..] + rest;
      SectionBodyCollects(ls[1..], rest);
    }
  }

  lemma {:induction false} SectionBodyPlain(lines: seq<string>, name: string)
    requires forall k :: 0 <= k < |lines| ==> !IsSectionHeader(lines[k], name) && !IsSubheading(lines[k])
    ensures SectionBody(ReadSectionLines(lines, name), true) == NonBlank(lines)
    decreases |lines|
  {
    if lines != [] {
      SectionBodyPlain(lines[1..], name);
      assert ReadSectionLines(lines, name)[1..] == ReadSectionLines(lines[1..], name);
    }
  }

  lemma SectionBodyOfBlock(P: seq<SectionLine>, B: seq<SectionLine>, R: seq<SectionLine>)
    requires forall k :: 0 <= k < |P| ==> !P[k].Header?
    requires forall k :: 0 <= k < |B| ==> B[k].Keep? || B[k].Skip?
    requires R == [] || R[0] == Stop
    ensures SectionBody(P + ([Header] + (B + R)), false) == SectionBody(B, true)
  {
    SectionBodySkips(P, [Header] + (B + R));
    assert ([Header] + (B + R))[1..] == B + R;
    SectionBodyCollects(B, R);
  }

  lemma SectionLinesOfBlock(pre: seq<string>, header: string, body: seq<string>, rest: seq<string>, name: string)
    requires IsSectionHeader(header, name)
    ensures ReadSectionLines(pre + [header] + body + rest, name) ==
      ReadSectionLines(pre, name) + ([Header] + (ReadSectionLines(body, name) + ReadSectionLines(rest, name)))
  {
    Regroup(pre, [header], body, rest);
    assert ReadSectionLines([header], name) == [Header];
    ReadSectionLinesConcat(body, rest, name);
    ReadSectionLinesConcat([header], body + rest, name);
    ReadSectionLinesConcat(pre, [header] + (body + rest), name);
  }

  /**
   * What extract_section collects from lines laid out as: lines without a
   * header, the header, lines that are neither header nor `##` line, then
   * nothing or a `##` line that is not itself a header: exactly the stripped
   * non-blank lines between header and `##` line, in order.
   */
  lemma SectionOfBlock(pre: seq<string>, header: string, body: seq<string>, rest: seq<string>, name: string)
    requires forall k :: 0 <= k < |pre| ==> !IsSectionHeader(pre[k], name)
    requires IsSectionHeader(header, name)
    requires forall k :: 0 <= k < |body| ==> !IsSectionHeader(body[k], name) && !IsSubheading(body[k])
    requires rest == [] || (!IsSectionHeader(rest[0], name) && IsSubheading(rest[0]))
    ensures SectionBody(ReadSectionLines(pre + [header] + body + rest, name), false) == NonBlank(body)
  {
    SectionLinesOfBlock(pre, header, body, rest, name);
    NoHeaderLines(pre, name);
    PlainLines(body, name);
    StopLine(rest, name);
    SectionBodyOfBlock(ReadSectionLines(pre, name), ReadSectionLines(body, name), ReadSectionLines(rest, name));
    SectionBodyPlain(body, name);
  }

  lemma NoHeaderLines(lines: seq<string>, name: string)
    requires forall k :: 0 <= k < |lines| ==> !IsSectionHeader(lines[k], name)
    ensures forall k :: 0 <= k < |lines| ==> !ReadSectionLines(lines, name)[k].Header?
  {
    forall k | 0 <= k < |lines|
      ensures !ReadSectionLines(lines, name)[k].Header?
    {
      assert ReadSectionLines(lines, name)[k] == ReadSectionLine(lines[k], name);
    }
  }

  lemma PlainLines(lines: seq<string>, name: string)
    requires forall k :: 0 <= k < |lines| ==> !IsSectionHeader(lines[k], name) && !IsSubheading(lines[k])
    ensures forall k :: 0 <= k < |lines| ==> ReadSectionLines(lines, name)[k].Keep? || ReadSectionLines(lines, name)[k].Skip?
  {
    forall k | 0 <= k < |lines|
      ensures ReadSectionLines(lines, name)[k].Keep? || ReadSectionLines(lines, name)[k].Skip?
    {
      assert ReadSectionLines(lines, name)[k] == ReadSectionLine(lines[k], name);
      PlainSectionLine(lines[k], name);
    }
  }

  lemma StopLine(rest: seq<string>, name: string)
    requires rest == [] || (!IsSectionHeader(rest[0], name) && IsSubheading(rest[0]))
    ensures ReadSectionLines(rest, name) == [] || ReadSectionLines(rest, name)[0] == Stop
  {
    if rest != [] {
      assert ReadSectionLines(rest, name)[0] == ReadSectionLine(rest[0], name);
    }
  }

  // ---------------------------------------------------------------------
  // All sections: split_analysis_sections

  /** The key a `##` line opens: every `##` removed, then stripped. */
  function HeadingKey(line: string): string {
    Strip(RemoveAll(line, "##"))
  }

  /** The branch of the split_analysis_sections loop a line takes. */
  datatype HeadingLine = Heading(key: string) | Content(text: string) | Blank

  function ReadHeadingLine(line: string): (r: HeadingLine)
    ensures r.Heading? <==> IsSubheading(line)
  {
    if IsSubheading(line) then Heading(HeadingKey(line))
    else if Strip(line) != "" then Content(Strip(line))
    else Blank
  }

  function ReadHeadingLines(lines: seq<string>): (r: seq<HeadingLine>)
    ensures |r| == |lines|
  {
    Map(ReadHeadingLine, lines)
  }

  lemma HeadingLinesConcat(a: seq<string>, b: seq<string>)
    ensures ReadHeadingLines(a + b) == ReadHeadingLines(a) + ReadHeadingLines(b)
  {
    MapConcat(ReadHeadingLine, a, b);
  }

  /** The loop state: the open section ("" when none, which Python treats as false), its lines, the map so far. */
  datatype SectionScan = SectionScan(current: string, text: seq<string>, sections: map<string, string>)

  /** Store the open section, if it has a non-empty name. */
  function Close(st: SectionScan): map<string, string> {
    if st.current != "" then st.sections[st.current := Join(st.text, "\n")] else st.sections
  }

  function SectionStep(st: SectionScan, l: HeadingLine): SectionScan {
    match l
    case Heading(key) => SectionScan(key, [], Close(st))
    case Content(s) => if st.current != "" then st.(text := st.text + [s]) else st
    case Blank => st
  }

  function ScanSections(ls: seq<HeadingLine>, st: SectionScan): map<string, string>
    decreases |ls|
  {
    if ls == [] then Close(st) else ScanSections(ls[1..], SectionStep(st, ls[0]))
  }

  const NoSection := SectionScan("", [], map[])

  /** One step of the scan from position `i`. */
  lemma ScanSectionsAt(ls: seq<HeadingLine>, i: nat, st: SectionScan)
    requires i < |ls|
    ensures ScanSections(ls[i..], st) == ScanSections(ls[i + 1..], SectionStep(st, ls[i]))
  {
    assert ls[i..][1..] == ls[i + 1..];
  }

  /** split_analysis_sections. */
  function Sections(analysis: string): map<string, string> {
    ScanSections(ReadHeadingLines(Lines(analysis)), NoSection)
  }

  /** The contents the read lines carry, in order. */
  function Contents(ls: seq<HeadingLine>): seq<string>
    decreases |ls|
  {
    if ls == [] then [] else (if ls[0].Content? then [ls[0].text] else []) + Contents(ls[1..])
  }

  lemma {:induction false} ContentsOfLines(lines: seq<string>)
    requires forall k :: 0 <= k < |lines| ==> !IsSubheading(lines[k])
    ensures Contents(ReadHeadingLines(lines)) == NonBlank(lines)
    decreases |lines|
  {
    if lines != [] {
      var r := ReadHeadingLines(lines);
      assert r[0] == ReadHeadingLine(lines[0]) && !IsSubheading(lines[0]);
      assert r[1..] == ReadHeadingLines(lines[1..]);
      ContentsOfLines(lines[1..]);
    }
  }

  /** Lines while no named section is open are ignored. */
  lemma {:induction false} ScanSectionsUnnamed(ls: seq<HeadingLine>, text: seq<string>, m: map<string, string>)
    requires forall k :: 0 <= k < |ls| ==> !ls[k].Heading?
    ensures ScanSections(ls, SectionScan("", text, m)) == m
    decreases |ls|
  {
    if ls != [] {
      ScanSectionsUnnamed(ls[1..], text, m);
    }
  }

  lemma {:induction false} ScanSectionsBody(key: string, text: seq<string>, m: map<string, string>, ls: seq<HeadingLine>)
    requires key != ""
    requires forall k :: 0 <= k < |ls| ==> !ls[k].Heading?
    ensures ScanSections(ls, SectionScan(key, text, m)) == m[key := Join(text + Contents(ls), "\n")]
    decreases |ls|
  {
    var st := SectionScan(key, text, m);
    if ls == [] {
      assert text + [] == text;
    } else {
      var rest := ls[1..];
      assert forall k :: 0 <= k < |rest| ==> !rest[k].Heading? by {
        forall k | 0 <= k < |rest| ensures !rest[k].Heading? {
          assert rest[k] == ls[k + 1];
        }
      }
      assert ScanSections(ls, st) == ScanSections(rest, SectionStep(st, ls[0]));
      if ls[0].Content? {
        assert SectionStep(st, ls[0]) == SectionScan(key, text + [ls[0].text], m);
        assert Contents(ls) == [ls[0].text] + Contents(rest);
        ScanSectionsBody(key, text + [ls[0].text], m, rest);
        assert text + [ls[0].text] + Contents(rest) == text + Contents(ls);
      } else {
        assert SectionStep(st, ls[0]) == st;
        assert Contents(ls) == Contents(rest);
        ScanSectionsBody(key, text, m, rest);
      }
    }
  }

  lemma {:induction false} ScanSectionsConcat(a: seq<HeadingLine>, b: seq<HeadingLine>, st: SectionScan)
    requires b != [] && b[0].Heading?
    ensures ScanSections(a + b, st) == ScanSections(b, SectionScan("", [], ScanSections(a, st)))
    decreases |a|
  {
    if a == [] {
      assert a + b == b;
    } else {
      assert (a + b)[0] == a[0] && (a + b)[1..] == a[1..] + b;
      ScanSectionsConcat(a[1..], b, SectionStep(st, a[0]));
    }
  }

  /** Text before the first `##` line is ignored: it yields no section. */
  lemma SectionsWithoutHeading(analysis: string)
    requires forall k :: 0 <= k < |Lines(analysis)| ==> !IsSubheading(Lines(analysis)[k])
    ensures Sections(analysis) == map[]
  {
    var ls := ReadHeadingLines(Lines(analysis));
    assert forall k :: 0 <= k < |ls| ==> ls[k] == ReadHeadingLine(Lines(analysis)[k]);
    ScanSectionsUnnamed(ls, [], map[]);
  }

  lemma HeadingLinesOfAppend(a: string, heading: string, body: string)
    requires IsSubheading(heading) && '\n' !in heading
    ensures ReadHeadingLines(Lines(a + "\n" + heading + "\n" + body)) ==
      ReadHeadingLines(Lines(a)) + ([Heading(HeadingKey(heading))] + ReadHeadingLines(Lines(body)))
  {
    LinesConcat(heading, body);
    SplitWithoutSep(heading, '\n');
    LinesConcat(a, heading + "\n" + body);
    Regroup5(a, "\n", heading, "\n", body);
    MapCons(ReadHeadingLine, [heading]);
    assert ReadHeadingLines([heading]) == [Heading(HeadingKey(heading))];
    HeadingLinesConcat([heading], Lines(body));
    HeadingLinesConcat(Lines(a), [heading] + Lines(body));
  }

  /**
   * Appending a `##` line and the lines under it to an analysis adds or
   * REPLACES one entry: the key is the `##` line with every `##` removed and
   * then stripped, the value the stripped non-blank lines under it joined by
   * newlines. A heading whose key is empty adds nothing.
   */
  lemma SectionsAppendBlock(a: string, heading: string, body: string)
    requires IsSubheading(heading) && '\n' !in heading
    requires forall k :: 0 <= k < |Lines(body)| ==> !IsSubheading(Lines(body)[k])
    ensures Sections(a + "\n" + heading + "\n" + body) ==
      if HeadingKey(heading) != "" then Sections(a)[HeadingKey(heading) := Join(NonBlank(Lines(body)), "\n")]
      else Sections(a)
  {
    var m := Sections(a);
    var key := HeadingKey(heading);
    var A, C := ReadHeadingLines(Lines(a)), ReadHeadingLines(Lines(body));
    HeadingLinesOfAppend(a, heading, body);
    ScanSectionsConcat(A, [Heading(key)] + C, NoSection);
    assert ([Heading(key)] + C)[1..] == C;
    forall k | 0 <= k < |C|
      ensures !C[k].Heading?
    {
      assert C[k] == ReadHeadingLine(Lines(body)[k]);
    }
    if key != "" {
      ScanSectionsBody(key, [], m, C);
      assert [] + Contents(C) == Contents(C);
      ContentsOfLines(Lines(body));
    } else {
      ScanSectionsUnnamed(C, [], m);
    }
  }
}
