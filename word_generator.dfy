/**
 * The three line parsers of backend/services/word_generator.py as the
 * loops they are. Each method walks the lines of its input once, testing
 * each line exactly as the source does, and is proved to return what the
 * scan functions of `AnalysisText` define; the lemmas there say what those
 * functions compute.
 */
module WordGenerator {
  import opened Wrappers
  import opened Text
  import opened AnalysisText
  import opened Seqs

  /**
   * extract_section: the stripped, non-empty lines after the last header
   * line naming the section, up to the next `##` line; `Не найдено` when
   * there are none.
   */
  method ExtractSection(text: string, sectionName: string) returns (r: string)
    ensures r == SectionText(text, sectionName)
  {
    var lines := Lines(text);
    ghost var ls := ReadSectionLines(lines, sectionName);
    var result: seq<string> := [];
    var inSection := false;
    var i := 0;
    while i < |lines|
      invariant 0 <= i <= |lines|
      invariant result + SectionBody(ls[i..], inSection) == SectionBody(ls, false)
    {
      assert ls[i] == ReadSectionLine(lines[i], sectionName);
      var inSection', result', stop := SectionLoopBody(lines[i], sectionName, inSection, result);
      if stop {
        SectionBodyAt(ls, i, inSection);
        assert result == SectionBody(ls, false);
        break;
      }
      SectionBodyStep(result, ls, i, inSection);
      inSection, result := inSection', result';
      i := i + 1;
    }
    assert result == SectionBody(ls, false);
    r := if result != [] then Join(result, "\n") else NotFound;
  }

  /** The body of the extract_section loop for one line; `stop` is its `break`. */
  method SectionLoopBody(line: string, sectionName: string, inSection: bool, result: seq<string>)
    returns (inSection': bool, result': seq<string>, stop: bool)
    ensures stop == (inSection && ReadSectionLine(line, sectionName).Stop?)
    ensures inSection' == (inSection || ReadSectionLine(line, sectionName).Header?)
    ensures result' == result + (if inSection && ReadSectionLine(line, sectionName).Keep?
      then [ReadSectionLine(line, sectionName).text] else [])
  {
    SectionLineCases(line, sectionName);
    inSection', result', stop := inSection, result, false;
    if Contains(Lower(line), Lower(sectionName)) && Contains(line, "#") {
      inSection' := true;
      return;
    }
    if inSection' {
      if StartsWith(Strip(line), "##") {
        stop := true;
        return;
      }
      if Strip(line) != "" {
        result' := result' + [Strip(line)];
      }
    }
  }

  /**
   * split_analysis_sections: every `##` line opens a section keyed by the
   * line without `##`, stripped; its value joins the stripped non-empty
   * lines up to the next `##` line. An empty key, like Python's None,
   * means no section is open.
   */
  method SplitAnalysisSections(analysis: string) returns (sections: map<string, string>)
    ensures sections == Sections(analysis)
  {
    sections := map[];
    var lines := Lines(analysis);
    ghost var ls := ReadHeadingLines(lines);
    var currentSection := "";
    var currentText: seq<string> := [];
    var i := 0;
    while i < |lines|
      invariant 0 <= i <= |lines|
      invariant ScanSections(ls[i..], SectionScan(currentSection, currentText, sections)) == Sections(analysis)
    {
      var line := lines[i];
      assert ls[i] == ReadHeadingLine(line);
      ScanSectionsAt(ls, i, SectionScan(currentSection, currentText, sections));
      if StartsWith(Strip(line), "##") {
        if currentSection != "" {
          sections := sections[currentSection := Join(currentText, "\n")];
        }
        currentSection := Strip(RemoveAll(line, "##"));
        currentText := [];
      } else if currentSection != "" {
        if Strip(line) != "" {
          currentText := currentText + [Strip(line)];
        }
      }
      i := i + 1;
    }
    if currentSection != "" {
      sections := sections[currentSection := Join(currentText, "\n")];
    }
  }

  /**
   * parse_tasks_from_analysis: each `Задача:` line opens a task with the
   * default deadline, assignee and priority; the field lines that follow it
   * overwrite those, one field per line.
   */
  method ParseTasksFromAnalysis(analysis: string) returns (tasks: seq<ParsedTask>)
    ensures tasks == ParseTasks(analysis)
    ensures |tasks| == |TaskLines(Lines(analysis))|
  {
    tasks := [];
    var lines := Lines(analysis);
    ghost var ls := ReadTaskLines(lines);
    var currentTask: Option<ParsedTask> := None;
    var i := 0;
    while i < |lines|
      invariant 0 <= i <= |lines|
      invariant ScanTasks(ls[i..], TaskScan(currentTask, tasks)) == ParseTasks(analysis)
    {
      ScanTasksAt(ls, i, TaskScan(currentTask, tasks));
      currentTask, tasks := TaskLoopBody(lines[i], currentTask, tasks);
      i := i + 1;
    }
    if currentTask.Some? {
      tasks := tasks + [currentTask.value];
    }
    ParseTasksFollowTaskLines(analysis);
  }

  /** The body of the task loop for one line. */
  method TaskLoopBody(line: string, currentTask: Option<ParsedTask>, tasks: seq<ParsedTask>)
    returns (currentTask': Option<ParsedTask>, tasks': seq<ParsedTask>)
    ensures TaskScan(currentTask', tasks') == TaskStep(TaskScan(currentTask, tasks), ReadTaskLine(line))
  {
    TaskLineCases(line);
    currentTask', tasks' := currentTask, tasks;
    if Contains(line, TaskMarker) {
      if currentTask'.Some? {
        tasks' := tasks' + [currentTask'.value];
      }
      currentTask' := Some(ParsedTask(Strip(TextAfter(line, TaskMarker)), NotSpecified, NotSpecified, DefaultPriority));
    } else if currentTask'.Some? {
      var task := currentTask'.value;
      if Contains(line, DeadlineMarker) {
        task := task.(deadline := Strip(TextAfter(line, DeadlineMarker)));
      } else if Contains(line, AssigneeMarker) {
        task := task.(assignee := Strip(TextAfter(line, AssigneeMarker)));
      } else if Contains(line, PriorityMarker) {
        task := task.(priority := Strip(TextAfter(line, PriorityMarker)));
      }
      currentTask' := Some(task);
    }
  }
}
