/**
 * backend/services/excel_generator.py: its own copies of the section and
 * task parsers, the rows of the "Задачи" sheet and the width rule for its
 * columns. A sheet is a sequence of rows, row 0 being the sheet's first
 * (header) row, each row a sequence of cells from column A on.
 */
module ExcelGenerator {
  import opened Wrappers
  import opened Text
  import opened AnalysisText
  import opened Seqs
  import WordGenerator

  /**
   * The copy of extract_section in excel_generator.py. It has the same
   * contract as the word generator's copy, so both return the same text for
   * every input.
   */
  method ExtractSection(text: string, sectionName: string) returns (r: string)
    ensures r == SectionText(text, sectionName)
  {
    var lines := Lines(text);
    ghost var ls := ReadSectionLines(lines, sectionName);
    var result: seq<string> := [];
    var inSection := false;
    var i := 0;
    while i < |lines|
      invariant 0 <= i <= |lines|
      invariant result + SectionBody(ls[i..], inSection) == SectionBody(ls, false)
    {
      assert ls[i] == ReadSectionLine(lines[i], sectionName);
      var inSection', result', stop := WordGenerator.SectionLoopBody(lines[i], sectionName, inSection, result);
      if stop {
        SectionBodyAt(ls, i, inSection);
        assert result == SectionBody(ls, false);
        break;
      }
      SectionBodyStep(result, ls, i, inSection);
      inSection, result := inSection', result';
      i := i + 1;
    }
    assert result == SectionBody(ls, false);
    r := if result != [] then Join(result, "\n") else NotFound;
  }

  /** The copy of parse_tasks_from_analysis in excel_generator.py; it agrees with the word generator's copy. */
  method ParseTasksFromAnalysis(analysis: string) returns (tasks: seq<ParsedTask>)
    ensures tasks == ParseTasks(analysis)
  {
    tasks := [];
    var lines := Lines(analysis);
    ghost var ls := ReadTaskLines(lines);
    var currentTask: Option<ParsedTask> := None;
    var i := 0;
    while i < |lines|
      invariant 0 <= i <= |lines|
      invariant ScanTasks(ls[i..], TaskScan(currentTask, tasks)) == ParseTasks(analysis)
    {
      ScanTasksAt(ls, i, TaskScan(currentTask, tasks));
      currentTask, tasks := WordGenerator.TaskLoopBody(lines[i], currentTask, tasks);
      i := i + 1;
    }
    if currentTask.Some? {
      tasks := tasks + [currentTask.value];
    }
  }

  /** A cell value: an integer, a text, or nothing. */
  datatype Cell = Number(n: int) | Str(s: string) | Empty

  const Headers: seq<string> := ["№", "Задача", "Дедлайн", "Ответственный", "Приоритет", "Статус"]

  /** The status every exported task gets. */
  const NewStatus := "Новая"

  const MaxWidth := 50

  /** The cells of task row number `number` (the row's index in the sheet). */
  function TaskRow(number: nat, t: ParsedTask): (r: seq<Cell>)
    ensures |r| == |Headers|
  {
    [Number(number), Str(t.description), Str(t.deadline), Str(t.assignee), Str(t.priority), Str(NewStatus)]
  }

  /**
   * The "Задачи" sheet of generate_excel: the header row, then one row per
   * task in order; the row at index r holds the number r, the task's four
   * fields in the order of the headers, and the status `Новая`.
   */
  method TaskSheet(tasks: seq<ParsedTask>) returns (sheet: seq<seq<Cell>>)
    ensures |sheet| == |tasks| + 1
    ensures sheet[0] == Map(s => Str(s), Headers)
    ensures forall r :: 1 <= r < |sheet| ==> sheet[r] == TaskRow(r, tasks[r - 1])
    ensures forall r :: 0 <= r < |sheet| ==> |sheet[r]| == |Headers|
  {
    sheet := [Map(s => Str(s), Headers)];
    var row := 2;
    for k := 0 to |tasks|
      invariant row == k + 2
      invariant |sheet| == k + 1
      invariant sheet[0] == Map(s => Str(s), Headers)
      invariant forall r :: 1 <= r < |sheet| ==> sheet[r] == TaskRow(r, tasks[r - 1])
      invariant forall r :: 0 <= r < |sheet| ==> |sheet[r]| == |Headers|
    {
      var task := tasks[k];
      sheet := sheet + [[Number(row - 1), Str(task.description), Str(task.deadline), Str(task.assignee),
        Str(task.priority), Str(NewStatus)]];
      row := row + 1;
    }
  }

  /** The cells of column `c` (0 for A), top to bottom; a row without that column reads as an empty cell. */
  function Column(sheet: seq<seq<Cell>>, c: nat): (r: seq<Cell>)
    ensures |r| == |sheet|
  {
    seq(|sheet|, k requires 0 <= k < |sheet| => if c < |sheet[k]| then sheet[k][c] else Empty)
  }

  /**
   * `max_length` after the loop over a column. Only text cells count:
   * `len(cell.value)` raises on a number or an empty cell, and the source
   * swallows that exception, so such a cell never changes the maximum.
   */
  function ColumnMax(cells: seq<Cell>): nat
    decreases |cells|
  {
    if cells == [] then 0
    else
      var m := ColumnMax(cells[..|cells| - 1]);
      match cells[|cells| - 1]
      case Str(s) => if |s| > m then |s| else m
      case _ => m
  }

  /** The adjusted width of a column: two more than the longest text, capped at 50. */
  function Width(maxLength: nat): nat {
    if maxLength + 2 < MaxWidth then maxLength + 2 else MaxWidth
  }

  /** ColumnMax is the length of the longest text in the column, or 0 when it holds no text. */
  lemma {:induction false} ColumnMaxIsLongest(cells: seq<Cell>)
    ensures forall k :: 0 <= k < |cells| && cells[k].Str? ==> |cells[k].s| <= ColumnMax(cells)
    ensures ColumnMax(cells) == 0 || exists k :: 0 <= k < |cells| && cells[k].Str? && |cells[k].s| == ColumnMax(cells)
    decreases |cells|
  {
    if cells != [] {
      var init := cells[..|cells| - 1];
      ColumnMaxIsLongest(init);
      assert forall k :: 0 <= k < |init| ==> init[k] == cells[k];
    }
  }

  /**
   * The width rule: never above 50, at least 2, and unless the cap applies,
   * two more than some text of the column and at least two more than each.
   */
  lemma ColumnWidthFits(cells: seq<Cell>)
    ensures 2 <= Width(ColumnMax(cells)) <= MaxWidth
    ensures forall k :: 0 <= k < |cells| && cells[k].Str? ==>
      Width(ColumnMax(cells)) == MaxWidth || |cells[k].s| + 2 <= Width(ColumnMax(cells))
    ensures Width(ColumnMax(cells)) < MaxWidth ==>
      Width(ColumnMax(cells)) == 2 || exists k :: 0 <= k < |cells| && cells[k].Str? && |cells[k].s| + 2 == Width(ColumnMax(cells))
  {
    ColumnMaxIsLongest(cells);
  }

  /** The column-width loop of generate_excel over the six columns of the sheet. */
  method ColumnWidths(sheet: seq<seq<Cell>>) returns (widths: seq<nat>)
    ensures |widths| == |Headers|
    ensures forall c :: 0 <= c < |widths| ==> widths[c] == Width(ColumnMax(Column(sheet, c)))
  {
    widths := [];
    for c := 0 to |Headers|
      invariant |widths| == c
      invariant forall j :: 0 <= j < c ==> widths[j] == Width(ColumnMax(Column(sheet, j)))
    {
      var column := Column(sheet, c);
      var maxLength := 0;
      for k := 0 to |column|
        invariant maxLength == ColumnMax(column[..k])
      {
        assert column[..k + 1][..k] == column[..k];
        match column[k]
        case Str(s) =>
          if |s| > maxLength {
            maxLength := |s|;
          }
        case _ =>
      }
      assert column[..|column|] == column;
      var adjustedWidth := if maxLength + 2 < MaxWidth then maxLength + 2 else MaxWidth;
      widths := widths + [adjustedWidth];
    }
  }
}
