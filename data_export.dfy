/**
 * The text `exportToCSV(statistics:tasks:)` writes: a header line, one row per task and a
 * block of statistics lines. The date text for a task's creation instant is produced by a
 * date formatter that is not part of this model; it is a parameter here.
 */
module DataExport {
  import opened Units
  import opened Strings
  import opened Tasks
  import opened Statistics

  /** Each line followed by a newline (the text the `+=` of line plus "\n" builds). */
  function Unlines(lines: seq<string>): string {
    if lines == [] then "" else lines[0] + "\n" + Unlines(lines[1..])
  }

  lemma {:induction false} UnlinesAppend(a: seq<string>, b: seq<string>)
    ensures Unlines(a + b) == Unlines(a) + Unlines(b)
  {
    if a == [] {
      assert a + b == b;
    } else {
      assert (a + b)[0] == a[0] && (a + b)[1..] == a[1..] + b;
      UnlinesAppend(a[1..], b);
    }
  }

  /** Newline-terminated lines are the newline-joined lines with one empty line after them. */
  lemma {:induction false} UnlinesJoin(lines: seq<string>)
    ensures Unlines(lines) == Join(lines + [""], '\n')
  {
    if lines != [] {
      assert (lines + [""])[0] == lines[0] && (lines + [""])[1..] == lines[1..] + [""];
      UnlinesJoin(lines[1..]);
    }
  }

  /** The header line of the CSV text. */
  const HeaderLine: string := "Type,Title,Estimated,Completed,Priority,Status,Created,Notes"

  /** The header holds no newline. */
  lemma HeaderPlain()
    ensures '\n' !in HeaderLine
  {
    assert HeaderLine == "Type,Title,Estimated,Completed,Priority," + "Status,Created,Notes";
    assert '\n' !in "Type,Title,Estimated,Completed,Priority,";
    assert '\n' !in "Status,Created,Notes";
  }

  function StatusText(task: PomodoroTask): (r: string)
    ensures r == "Completed" || r == "Pending"
    ensures r == "Completed" <==> task.isCompleted
  {
    if task.isCompleted then "Completed" else "Pending"
  }

  /** The escaped title: commas become semicolons. */
  function TitleField(task: PomodoroTask): string {
    ReplaceChar(task.title, ',', ';')
  }

  /** The escaped notes: commas become semicolons, then newlines become spaces. */
  function NotesField(task: PomodoroTask): string {
    ReplaceChar(ReplaceChar(task.notes, ',', ';'), '\n', ' ')
  }

  /** The eight columns of a task row, in header order. */
  function RowFields(task: PomodoroTask, date: string): seq<string> {
    ["Task", TitleField(task), IntToString(task.estimatedPomodoros), IntToString(task.completedPomodoros),
     task.priority.Title(), StatusText(task), date, NotesField(task)]
  }

  /** A row: its eight columns joined by commas. */
  function RowLine(task: PomodoroTask, date: string): string {
    Join(RowFields(task, date), ',')
  }

  /** The row's text is the interpolation `Task,\(title),\(estimated),...,\(notes)`. */
  lemma RowText(task: PomodoroTask, date: string)
    ensures RowLine(task, date) == "Task," + TitleField(task) + "," + IntToString(task.estimatedPomodoros) + ","
      + IntToString(task.completedPomodoros) + "," + task.priority.Title() + "," + StatusText(task) + ","
      + date + "," + NotesField(task)
  {
    var f := RowFields(task, date);
    assert f[..1] == ["Task"];
    assert "Task" + "," == "Task,";
    assert f[..2] == f[..1] + [f[1]];
    JoinSnoc(f[..1], f[1], ',');
    assert f[..3] == f[..2] + [f[2]];
    JoinSnoc(f[..2], f[2], ',');
    assert f[..4] == f[..3] + [f[3]];
    JoinSnoc(f[..3], f[3], ',');
    assert f[..5] == f[..4] + [f[4]];
    JoinSnoc(f[..4], f[4], ',');
    assert f[..6] == f[..5] + [f[5]];
    JoinSnoc(f[..5], f[5], ',');
    assert f[..7] == f[..6] + [f[6]];
    JoinSnoc(f[..6], f[6], ',');
    assert f[..8] == f[..7] + [f[7]];
    JoinSnoc(f[..7], f[7], ',');
    assert f[..8] == f;
  }

  /** The row lines, one per task and in list order. */
  function RowLines(tasks: seq<PomodoroTask>, formattedDate: Instant -> string): seq<string> {
    seq(|tasks|, i requires 0 <= i < |tasks| => RowLine(tasks[i], formattedDate(tasks[i].createdAt)))
  }

  /** One `name,value` line of the statistics block. */
  function StatLine(name: string, value: int): string {
    name + "," + IntToString(value)
  }

  /** The statistics block: an empty line, its title, then five name,value lines. */
  function StatisticsLines(statistics: SessionStatistics): seq<string> {
    ["", "Statistics",
     StatLine("Total Work Sessions", statistics.totalWorkSessions),
     StatLine("Total Work Minutes", statistics.totalWorkMinutes),
     StatLine("Total Break Minutes", statistics.totalBreakMinutes),
     StatLine("Current Streak", statistics.currentStreak),
     StatLine("Longest Streak", statistics.longestStreak)]
  }

  function CsvLines(statistics: SessionStatistics, tasks: seq<PomodoroTask>, formattedDate: Instant -> string)
    : seq<string>
  {
    [HeaderLine] + RowLines(tasks, formattedDate) + StatisticsLines(statistics)
  }

  /** The whole exported text; it always begins with the header line. */
  function Csv(statistics: SessionStatistics, tasks: seq<PomodoroTask>, formattedDate: Instant -> string)
    : (r: string)
    ensures |r| > |HeaderLine| && r[..|HeaderLine| + 1] == HeaderLine + "\n"
  {
    var lines := CsvLines(statistics, tasks, formattedDate);
    UnlinesAppend([HeaderLine], lines[1..]);
    assert lines == [HeaderLine] + lines[1..];
    assert Unlines([HeaderLine]) == HeaderLine + "\n";
    Unlines(lines)
  }

  /** One more task appends its row line and a newline to the text built so far. */
  lemma RowStep(tasks: seq<PomodoroTask>, i: nat, formattedDate: Instant -> string)
    requires i < |tasks|
    ensures Unlines([HeaderLine] + RowLines(tasks[..i + 1], formattedDate))
         == Unlines([HeaderLine] + RowLines(tasks[..i], formattedDate))
            + RowLine(tasks[i], formattedDate(tasks[i].createdAt)) + "\n"
  {
    var row := RowLine(tasks[i], formattedDate(tasks[i].createdAt));
    assert tasks[..i + 1][..i] == tasks[..i];
    assert [HeaderLine] + RowLines(tasks[..i + 1], formattedDate)
        == [HeaderLine] + RowLines(tasks[..i], formattedDate) + [row];
    UnlinesAppend([HeaderLine] + RowLines(tasks[..i], formattedDate), [row]);
    assert Unlines([row]) == row + "\n";
  }

  /** `exportToCSV`'s text, built as the source builds it: header, a loop over the tasks, statistics. */
  method ExportCsv(statistics: SessionStatistics, tasks: seq<PomodoroTask>, formattedDate: Instant -> string)
    returns (csv: string)
    ensures csv == Csv(statistics, tasks, formattedDate)
  {
    csv := HeaderLine + "\n";
    assert csv == Unlines([HeaderLine] + RowLines(tasks[..0], formattedDate));
    for i := 0 to |tasks|
      invariant csv == Unlines([HeaderLine] + RowLines(tasks[..i], formattedDate))
    {
      var task := tasks[i];
      var status := if task.isCompleted then "Completed" else "Pending";
      var title := ReplaceChar(task.title, ',', ';');
      var notes := ReplaceChar(ReplaceChar(task.notes, ',', ';'), '\n', ' ');
      var row := "Task," + title + "," + IntToString(task.estimatedPomodoros) + ","
        + IntToString(task.completedPomodoros) + "," + task.priority.Title() + "," + status + ","
        + formattedDate(task.createdAt) + "," + notes;
      RowText(task, formattedDate(task.createdAt));
      RowStep(tasks, i, formattedDate);
      csv := csv + row + "\n";
    }
    assert tasks[..|tasks|] == tasks;
    UnlinesAppend([HeaderLine] + RowLines(tasks, formattedDate), StatisticsLines(statistics));
    csv := AppendStatistics(csv, statistics);
  }

  /** The statistics block of `exportToCSV`, appended line by line to the text built so far. */
  method AppendStatistics(text: string, statistics: SessionStatistics) returns (csv: string)
    ensures csv == text + Unlines(StatisticsLines(statistics))
  {
    csv := text + "\nStatistics\n";
    csv := csv + (StatLine("Total Work Sessions", statistics.totalWorkSessions) + "\n");
    csv := csv + (StatLine("Total Work Minutes", statistics.totalWorkMinutes) + "\n");
    csv := csv + (StatLine("Total Break Minutes", statistics.totalBreakMinutes) + "\n");
    csv := csv + (StatLine("Current Streak", statistics.currentStreak) + "\n");
    csv := csv + (StatLine("Longest Streak", statistics.longestStreak) + "\n");
    StatisticsText(text, statistics);
  }

  /** The statistics block, as the five `+=` after the heading write it. */
  lemma StatisticsText(text: string, statistics: SessionStatistics)
    ensures text + "\nStatistics\n"
        + (StatLine("Total Work Sessions", statistics.totalWorkSessions) + "\n")
        + (StatLine("Total Work Minutes", statistics.totalWorkMinutes) + "\n")
        + (StatLine("Total Break Minutes", statistics.totalBreakMinutes) + "\n")
        + (StatLine("Current Streak", statistics.currentStreak) + "\n")
        + (StatLine("Longest Streak", statistics.longestStreak) + "\n")
      == text + Unlines(StatisticsLines(statistics))
  {
    StatisticsHeading();
    SevenLines(text, "", "Statistics",
      StatLine("Total Work Sessions", statistics.totalWorkSessions),
      StatLine("Total Work Minutes", statistics.totalWorkMinutes),
      StatLine("Total Break Minutes", statistics.totalBreakMinutes),
      StatLine("Current Streak", statistics.currentStreak),
      StatLine("Longest Streak", statistics.longestStreak));
  }

  /** The heading write is an empty line followed by the heading line. */
  lemma StatisticsHeading()
    ensures "\nStatistics\n" == "" + "\n" + "Statistics" + "\n"
  {
  }

  /** Appending one more line to a block of lines. */
  lemma UnlinesSnoc(lines: seq<string>, line: string)
    ensures Unlines(lines + [line]) == Unlines(lines) + (line + "\n")
  {
    UnlinesAppend(lines, [line]);
    assert Unlines([line]) == line + "\n" + Unlines([]);
  }

  /** Seven lines written one after another, the first two in a single piece. */
  lemma SevenLines(text: string, l0: string, l1: string, l2: string, l3: string, l4: string, l5: string, l6: string)
    ensures text + (l0 + "\n" + l1 + "\n") + (l2 + "\n") + (l3 + "\n") + (l4 + "\n") + (l5 + "\n") + (l6 + "\n")
      == text + Unlines([l0, l1, l2, l3, l4, l5, l6])
  {
    UnlinesSnoc([l0], l1);
    assert [l0] + [l1] == [l0, l1];
    assert Unlines([l0]) == l0 + "\n" + Unlines([]);
    var t := text + (l0 + "\n" + l1 + "\n");
    assert t == text + Unlines([l0, l1]);
    UnlinesSnoc([l0, l1], l2);
    assert [l0, l1] + [l2] == [l0, l1, l2];
    assert t + (l2 + "\n") == text + Unlines([l0, l1, l2]);
    t := t + (l2 + "\n");
    UnlinesSnoc([l0, l1, l2], l3);
    assert [l0, l1, l2] + [l3] == [l0, l1, l2, l3];
    assert t + (l3 + "\n") == text + Unlines([l0, l1, l2, l3]);
    t := t + (l3 + "\n");
    UnlinesSnoc([l0, l1, l2, l3], l4);
    assert [l0, l1, l2, l3] + [l4] == [l0, l1, l2, l3, l4];
    assert t + (l4 + "\n") == text + Unlines([l0, l1, l2, l3, l4]);
    t := t + (l4 + "\n");
    UnlinesSnoc([l0, l1, l2, l3, l4], l5);
    assert [l0, l1, l2, l3, l4] + [l5] == [l0, l1, l2, l3, l4, l5];
    assert t + (l5 + "\n") == text + Unlines([l0, l1, l2, l3, l4, l5]);
    t := t + (l5 + "\n");
    UnlinesSnoc([l0, l1, l2, l3, l4, l5], l6);
    assert [l0, l1, l2, l3, l4, l5] + [l6] == [l0, l1, l2, l3, l4, l5, l6];
  }

  /** A number's text never holds a comma or a newline. */
  lemma NumberTextPlain(n: int)
    ensures ',' !in IntToString(n) && '\n' !in IntToString(n)
  {
    var r := IntToString(n);
    forall i | 0 <= i < |r| ensures r[i] != ',' && r[i] != '\n' {
      assert IsDigit(r[i]) || r[i] == '-';
    }
  }

  /**
   * With a date text free of commas, every row has exactly seven commas, and splitting it at
   * commas gives back its eight columns; the status column says "Completed" exactly for a
   * completed task.
   */
  lemma RowColumns(task: PomodoroTask, date: string)
    requires ',' !in date
    ensures Count(RowLine(task, date), ',') == 7
    ensures var columns := Split(RowLine(task, date), ',');
      && columns == RowFields(task, date) && |columns| == 8
      && columns[0] == "Task" && columns[6] == date
      && (columns[5] == "Completed" <==> task.isCompleted)
  {
    var f := RowFields(task, date);
    NumberTextPlain(task.estimatedPomodoros);
    NumberTextPlain(task.completedPomodoros);
    assert ',' !in task.priority.Title();
    assert ',' !in StatusText(task);
    assert forall i :: 0 <= i < |f| ==> ',' !in f[i];
    CountJoin(f, ',');
    SplitJoin(f, ',');
  }

  /**
   * With titles and date texts free of newlines, the text splits at newlines into the header,
   * one row per task in list order, and the statistics block, followed by the empty remainder
   * after the final newline.
   */
  lemma ExportLines(statistics: SessionStatistics, tasks: seq<PomodoroTask>, formattedDate: Instant -> string)
    requires forall i :: 0 <= i < |tasks| ==> '\n' !in tasks[i].title
    requires forall i :: 0 <= i < |tasks| ==> '\n' !in formattedDate(tasks[i].createdAt)
    ensures var lines := Split(Csv(statistics, tasks, formattedDate), '\n');
      && |lines| == |tasks| + 9
      && lines[0] == HeaderLine
      && (forall i :: 0 <= i < |tasks| ==> lines[i + 1] == RowLine(tasks[i], formattedDate(tasks[i].createdAt)))
      && lines[|tasks| + 1..] == StatisticsLines(statistics) + [""]
  {
    var lines := CsvLines(statistics, tasks, formattedDate);
    CsvSplit(statistics, tasks, formattedDate);
    CsvLinesShape(statistics, tasks, formattedDate);
    LinesShape(lines, |tasks|);
  }

  /** With newline-free titles and dates, splitting the text at newlines gives back its lines. */
  lemma CsvSplit(statistics: SessionStatistics, tasks: seq<PomodoroTask>, formattedDate: Instant -> string)
    requires forall i :: 0 <= i < |tasks| ==> '\n' !in tasks[i].title
    requires forall i :: 0 <= i < |tasks| ==> '\n' !in formattedDate(tasks[i].createdAt)
    ensures Split(Csv(statistics, tasks, formattedDate), '\n') == CsvLines(statistics, tasks, formattedDate) + [""]
  {
    CsvLinesFree(statistics, tasks, formattedDate);
    SplitLines(CsvLines(statistics, tasks, formattedDate));
  }

  /** The export's lines: the header, one row per task in order, then the statistics block. */
  lemma CsvLinesShape(statistics: SessionStatistics, tasks: seq<PomodoroTask>, formattedDate: Instant -> string)
    ensures var lines := CsvLines(statistics, tasks, formattedDate);
      && |lines| == |tasks| + 8
      && lines[0] == HeaderLine
      && (forall i :: 0 <= i < |tasks| ==> lines[i + 1] == RowLine(tasks[i], formattedDate(tasks[i].createdAt)))
      && lines[|tasks| + 1..] == StatisticsLines(statistics)
  {
    var rows := RowLines(tasks, formattedDate);
    var tail := StatisticsLines(statistics);
    Framed(HeaderLine, rows, tail);
    var lines := [HeaderLine] + rows + tail;
    assert |tail| == 7;
    forall i | 0 <= i < |tasks| ensures lines[i + 1] == RowLine(tasks[i], formattedDate(tasks[i].createdAt)) {
      assert lines[i + 1] == rows[i];
    }
  }

  /** A header, then rows, then a tail: each part is found back at its place. */
  lemma Framed(header: string, rows: seq<string>, tail: seq<string>)
    ensures var lines := [header] + rows + tail;
      && |lines| == |rows| + 1 + |tail| && lines[0] == header
      && (forall i :: 0 <= i < |rows| ==> lines[i + 1] == rows[i])
      && lines[|rows| + 1..] == tail
  {
    var lines := [header] + rows + tail;
    assert lines[|rows| + 1..] == tail;
  }

  /** Lines followed by the empty piece a final newline leaves. */
  lemma LinesShape(lines: seq<string>, n: nat)
    requires n + 1 <= |lines|
    ensures |lines + [""]| == |lines| + 1 && (lines + [""])[0] == lines[0]
    ensures forall j :: 1 <= j <= n ==> (lines + [""])[j] == lines[j]
    ensures (lines + [""])[n + 1..] == lines[n + 1..] + [""]
  {
  }

  /** With newline-free titles and dates, no line of the export holds a newline of its own. */
  lemma CsvLinesFree(statistics: SessionStatistics, tasks: seq<PomodoroTask>, formattedDate: Instant -> string)
    requires forall i :: 0 <= i < |tasks| ==> '\n' !in tasks[i].title
    requires forall i :: 0 <= i < |tasks| ==> '\n' !in formattedDate(tasks[i].createdAt)
    ensures NoNewlines(CsvLines(statistics, tasks, formattedDate))
  {
    var rows := RowLines(tasks, formattedDate);
    forall i | 0 <= i < |rows| ensures '\n' !in rows[i] {
      RowFree(tasks[i], formattedDate(tasks[i].createdAt));
    }
    StatisticsFree(statistics);
    HeaderPlain();
    NoNewlinesAppend([HeaderLine], rows);
    NoNewlinesAppend([HeaderLine] + rows, StatisticsLines(statistics));
  }

  predicate NoNewlines(lines: seq<string>) {
    forall i :: 0 <= i < |lines| ==> '\n' !in lines[i]
  }

  lemma NoNewlinesAppend(a: seq<string>, b: seq<string>)
    requires NoNewlines(a) && NoNewlines(b)
    ensures NoNewlines(a + b)
  {
    forall i | 0 <= i < |a + b| ensures '\n' !in (a + b)[i] {
      if i >= |a| { assert (a + b)[i] == b[i - |a|]; }
    }
  }

  /** Newline-terminated lines without newlines of their own split back into those lines. */
  lemma SplitLines(lines: seq<string>)
    requires NoNewlines(lines)
    ensures Split(Unlines(lines), '\n') == lines + [""]
  {
    UnlinesJoin(lines);
    var all := lines + [""];
    forall i | 0 <= i < |all| ensures '\n' !in all[i] {
      if i < |lines| { assert all[i] == lines[i]; }
    }
    SplitJoin(all, '\n');
  }

  /** No column of a row holds a newline when the title and date text hold none. */
  lemma RowFree(task: PomodoroTask, date: string)
    requires '\n' !in task.title && '\n' !in date
    ensures '\n' !in RowLine(task, date)
  {
    RowText(task, date);
    NumberTextPlain(task.estimatedPomodoros);
    NumberTextPlain(task.completedPomodoros);
    var t := TitleField(task);
    forall i | 0 <= i < |t| ensures t[i] != '\n' {
      assert task.title[i] != '\n';
    }
    assert '\n' !in task.priority.Title();
    assert '\n' !in StatusText(task);
  }

  lemma StatisticsFree(statistics: SessionStatistics)
    ensures NoNewlines(StatisticsLines(statistics))
  {
    var s := StatisticsLines(statistics);
    NamesFree();
    forall i | 0 <= i < 7 ensures '\n' !in s[i] {
      if i == 2 { LineFree("Total Work Sessions", statistics.totalWorkSessions); }
      else if i == 3 { LineFree("Total Work Minutes", statistics.totalWorkMinutes); }
      else if i == 4 { LineFree("Total Break Minutes", statistics.totalBreakMinutes); }
      else if i == 5 { LineFree("Current Streak", statistics.currentStreak); }
      else if i == 6 { LineFree("Longest Streak", statistics.longestStreak); }
    }
  }

  /** None of the statistics names holds a line break. */
  lemma NamesFree()
    ensures '\n' !in "Total Work Sessions" && '\n' !in "Total Work Minutes" && '\n' !in "Total Break Minutes"
    ensures '\n' !in "Current Streak" && '\n' !in "Longest Streak"
  {
  }

  lemma LineFree(name: string, n: int)
    requires '\n' !in name
    ensures '\n' !in StatLine(name, n)
  {
    NumberTextPlain(n);
  }

  lemma StatisticsColumns(statistics: SessionStatistics)
    ensures var s := StatisticsLines(statistics);
      && s[0] == "" && s[1] == "Statistics"
      && Split(s[2], ',') == ["Total Work Sessions", IntToString(statistics.totalWorkSessions)]
      && Split(s[3], ',') == ["Total Work Minutes", IntToString(statistics.totalWorkMinutes)]
      && Split(s[4], ',') == ["Total Break Minutes", IntToString(statistics.totalBreakMinutes)]
      && Split(s[5], ',') == ["Current Streak", IntToString(statistics.currentStreak)]
      && Split(s[6], ',') == ["Longest Streak", IntToString(statistics.longestStreak)]
  {
    NamesPlain();
    NameValue("Total Work Sessions", statistics.totalWorkSessions);
    NameValue("Total Work Minutes", statistics.totalWorkMinutes);
    NameValue("Total Break Minutes", statistics.totalBreakMinutes);
    NameValue("Current Streak", statistics.currentStreak);
    NameValue("Longest Streak", statistics.longestStreak);
  }

  /** None of the statistics names holds a comma. */
  lemma NamesPlain()
    ensures ',' !in "Total Work Sessions" && ',' !in "Total Work Minutes" && ',' !in "Total Break Minutes"
    ensures ',' !in "Current Streak" && ',' !in "Longest Streak"
  {
  }

  /** A `name,value` line splits into the name and the value's text, which reads back as a natural value. */
  lemma NameValue(name: string, n: int)
    requires ',' !in name
    ensures Split(StatLine(name, n), ',') == [name, IntToString(n)]
    ensures n >= 0 ==> DigitsValue(Split(StatLine(name, n), ',')[1]) == n
  {
    NumberTextPlain(n);
    SplitAbsent(name, ',');
    SplitSuffix(name, IntToString(n), ',');
    if n >= 0 {
      DigitsValueOfNatToString(n);
    }
  }
}
