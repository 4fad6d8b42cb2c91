/** The week arithmetic and the weekly-note template of
    `modules/note_manager.py`: the week of the month clamped to 1..5, the
    last-week test, the ordinal name of the week, and the note's file name
    and text. */
module NoteManager {
  import opened Text
  import opened Dict
  import opened Dates
  import opened DayNotes
  import opened WeekDates
  import WeeklyTasks

  /** `get_week_number`: days 1-7 are week 1, 8-14 week 2, and so on,
      never more than 5. */
  function WeekNumber(today: Date): (w: int)
    requires ValidDate(today)
    ensures 1 <= w <= 5
    ensures w < 5 ==> 7 * (w - 1) < today.day <= 7 * w
    ensures w == 5 <==> today.day >= 29
  {
    var week := (today.day - 1) / 7 + 1;
    if week < 5 then week else 5
  }

  /** The fourth week is days 22 to 28, and days 16 to 21 are in the third
      (the range "16-28" in the function's own description overlaps the
      third week; the code is followed here). */
  lemma FourthWeek(today: Date)
    requires ValidDate(today)
    ensures WeekNumber(today) == 4 <==> 22 <= today.day <= 28
    ensures 16 <= today.day <= 21 ==> WeekNumber(today) == 3
  {
  }

  /** A call that either returns or raises `NameError` for an unbound name. */
  datatype Raised<T> = Returns(value: T) | NameError(name: string)

  /** The global names `modules/note_manager.py` binds: its imports and its
      own functions. `calendar` is not among them. */
  const ModuleNames: set<string> := {"os", "shutil", "Path", "datetime", "timedelta", "log_action",
    "create_weekly_note", "archive_weekly_note", "get_week_dates", "get_week_number",
    "get_month_name", "is_last_week_of_month", "get_ordinal_week"}

  /** `is_last_week_of_month` run where the global names `bound` are
      defined: looking up `calendar` raises unless it is bound; otherwise
      the week of today is compared with the week of the month's last day. */
  function IsLastWeekIn(today: Date, bound: set<string>): (r: Raised<bool>)
    requires ValidDate(today)
    ensures r.NameError? <==> "calendar" !in bound
    ensures r.Returns? ==> (r.value <==> today.day >= 29 || (LastDayOf(today) == 28 && today.day >= 22))
  {
    if "calendar" !in bound then NameError("calendar")
    else Returns(WeekNumber(today) == (LastDayOf(today) - 1) / 7 + 1)
  }

  /** `is_last_week_of_month` with `calendar` imported. */
  function IsLastWeekOfMonth(today: Date): bool
    requires ValidDate(today)
  {
    IsLastWeekIn(today, ModuleNames + {"calendar"}).value
  }

  /** The `ordinals` table with its `f"{week_number}th"` default. */
  function OrdinalName(n: int): (r: string)
    ensures r != "last"
  {
    if n == 1 then "first" else if n == 2 then "second" else if n == 3 then "third"
    else if n == 4 then "fourth" else if n == 5 then "fifth"
    else
      var r := IntToString(n) + "th";
      assert r[|r| - 1] == 'h';
      r
  }

  /** `get_ordinal_week` where the global names `bound` are defined:
      `"last"` in the last week, the table's name otherwise, and the
      last-week test's `NameError` if it raises. */
  function OrdinalWeekIn(n: int, today: Date, bound: set<string>): (r: Raised<string>)
    requires ValidDate(today)
    ensures r.NameError? <==> "calendar" !in bound
    ensures r.Returns? ==> (r.value == "last" <==> IsLastWeekIn(today, bound).value)
  {
    match IsLastWeekIn(today, bound)
    case NameError(name) => NameError(name)
    case Returns(last) => Returns(if last then "last" else OrdinalName(n))
  }

  /** `get_ordinal_week` with `calendar` imported. */
  function OrdinalWeek(n: int, today: Date): string
    requires ValidDate(today)
  {
    OrdinalWeekIn(n, today, ModuleNames + {"calendar"}).value
  }

  /** For the week of a real date, `"fifth"` and the `th` default are never
      reached: the fifth week is always the last, and the fourth is named
      only in a month with a fifth. */
  lemma OrdinalOfToday(today: Date)
    requires ValidDate(today)
    ensures var r := OrdinalWeek(WeekNumber(today), today);
      r in {"first", "second", "third", "fourth", "last"}
      && (r == "fourth" ==> LastDayOf(today) >= 29 && 22 <= today.day <= 28)
      && (r == "last" <==> IsLastWeekOfMonth(today))
  {
  }

  /** The line of the header for day `i` of the week in the template. */
  function HeaderLine(i: int): (k: int)
    requires 0 <= i < 7
    ensures 5 <= k < 21
  {
    if i == 0 then 5 else 6 + 2 * i
  }

  /** Line `k` of the template of `create_weekly_note` around a title and
      seven day headers: title, blank, link, tag, blank, the Monday header,
      the anchor task, blank, then each further header followed by a blank
      line, and one more blank line at the end. */
  function LineAt(title: string, hs: seq<string>, k: int): string
    requires |hs| == 7 && 0 <= k < 21
  {
    if k == 0 then title
    else if k == 2 then "[[this-week|this week]]"
    else if k == 3 then "#this-week"
    else if k == 5 then hs[0]
    else if k == 6 then WeeklyTasks.Anchor
    else if 8 <= k <= 18 && k % 2 == 0 then hs[(k - 6) / 2]
    else ""
  }

  function Layout(title: string, hs: seq<string>): (ls: seq<string>)
    requires |hs| == 7
    ensures |ls| == 21 && forall k :: 0 <= k < 21 ==> ls[k] == LineAt(title, hs, k)
  {
    seq(21, k requires 0 <= k < 21 => LineAt(title, hs, k))
  }

  /** Each header sits at its line, and when the title and headers are
      single lines, so is every line. */
  lemma LayoutLines(title: string, hs: seq<string>)
    requires |hs| == 7
    ensures forall i :: 0 <= i < 7 ==> Layout(title, hs)[HeaderLine(i)] == hs[i]
    ensures NoNewline(title) && (forall i :: 0 <= i < 7 ==> NoNewline(hs[i])) ==> AllNoNewline(Layout(title, hs))
  {
    FixedLinesOneLine();
  }

  lemma FixedLinesOneLine()
    ensures NoNewline("[[this-week|this week]]") && NoNewline("#this-week") && NoNewline(WeeklyTasks.Anchor)
  {
    var a, b, c := "[[this-week|this week]]", "#this-week", WeeklyTasks.Anchor;
    forall j | 0 <= j < |a| ensures a[j] != '\n' { assert a[j] in "[]thisweek|- "; }
    forall j | 0 <= j < |b| ensures b[j] != '\n' { assert b[j] in "#thisweek-"; }
    forall j | 0 <= j < |c| ensures c[j] != '\n' { assert c[j] in "- []Organizftesmn"; }
  }

  /** When the title is no heading, the headers are the only heading lines. */
  lemma LayoutHeadings(title: string, hs: seq<string>)
    requires |hs| == 7 && !IsHeading(title)
    ensures forall k :: 0 <= k < 21 && IsHeading(Layout(title, hs)[k]) ==> exists i :: 0 <= i < 7 && k == HeaderLine(i)
  {
    var ls := Layout(title, hs);
    AnchorNotHeading();
    forall k | 0 <= k < 21 && IsHeading(ls[k])
      ensures exists i :: 0 <= i < 7 && k == HeaderLine(i)
    {
      if k == 5 {
        assert k == HeaderLine(0);
      } else {
        assert k == HeaderLine((k - 6) / 2);
      }
    }
  }

  lemma AnchorNotHeading()
    ensures !IsHeading(WeeklyTasks.Anchor)
  {
    assert WeeklyTasks.Anchor[0] == '-';
  }

  /** The anchor task is the line after the Monday header, followed by a
      blank line and then the Tuesday header; no other line is the anchor. */
  lemma LayoutAnchor(title: string, hs: seq<string>)
    requires |hs| == 7
    requires title != WeeklyTasks.Anchor && forall i :: 0 <= i < 7 ==> IsHeading(hs[i])
    ensures var ls := Layout(title, hs);
      ls[HeaderLine(0) + 1] == WeeklyTasks.Anchor && ls[HeaderLine(0) + 2] == "" &&
      HeaderLine(0) + 3 == HeaderLine(1) &&
      forall k :: 0 <= k < 21 && ls[k] == WeeklyTasks.Anchor ==> k == HeaderLine(0) + 1
  {
    var ls := Layout(title, hs);
    AnchorNotHeading();
    forall k | 0 <= k < 21 && k != 6
      ensures ls[k] != WeeklyTasks.Anchor
    {
      assert ls[k] == LineAt(title, hs, k);
    }
  }

  /** The template lines of `create_weekly_note` for today. */
  function NoteLines(today: Date): (ls: seq<string>)
    requires ValidDate(today)
    ensures |ls| == 21
  {
    Layout(TitleLine(MonthName(today.month), WeekNumber(today), today.year), WeekHeaders(today))
  }

  /** The note's text. */
  function NoteContent(today: Date): string
    requires ValidDate(today)
  {
    Join(NoteLines(today))
  }

  lemma TitleNotHeading(m: int, week: int, year: int)
    requires 1 <= m <= 12
    ensures !IsHeading(TitleLine(MonthName(m), week, year))
    ensures TitleLine(MonthName(m), week, year) != WeeklyTasks.Anchor
  {
    var t := TitleLine(MonthName(m), week, year);
    assert t[1] == ' ';
    assert t[0] == '#' && WeeklyTasks.Anchor[0] == '-';
  }

  /** Splitting the note text at line breaks gives the template lines back;
      the headers run Monday to Sunday, read back as the days of the
      current week, and no other line is a heading. */
  lemma NoteHeaders(today: Date)
    requires ValidDate(today)
    ensures Split(NoteContent(today)) == NoteLines(today)
    ensures forall i :: 0 <= i < 7 ==>
      ExtractDayDate(NoteLines(today)[HeaderLine(i)]) == Some((Names()[i], FormatDDMM(WeekDay(today, i))))
    ensures forall k :: 0 <= k < 21 && IsHeading(NoteLines(today)[k]) ==> exists i :: 0 <= i < 7 && k == HeaderLine(i)
  {
    var title := TitleLine(MonthName(today.month), WeekNumber(today), today.year);
    var hs := WeekHeaders(today);
    TitleOneLine(today.month, WeekNumber(today), today.year);
    TitleNotHeading(today.month, WeekNumber(today), today.year);
    LayoutLines(title, hs);
    LayoutHeadings(title, hs);
    SplitJoin(Layout(title, hs));
    forall i | 0 <= i < 7
      ensures ExtractDayDate(hs[i]) == Some((Names()[i], FormatDDMM(WeekDay(today, i))))
    {
      HeaderReadsBack(today, i);
    }
  }

  /** The Monday section holds the anchor task and a blank line, and the
      anchor occurs on no other line. */
  lemma MondaySection(today: Date)
    requires ValidDate(today)
    ensures var ls := NoteLines(today);
      ls[HeaderLine(0) + 1] == WeeklyTasks.Anchor && ls[HeaderLine(0) + 2] == "" &&
      HeaderLine(0) + 3 == HeaderLine(1) &&
      forall k :: 0 <= k < 21 && ls[k] == WeeklyTasks.Anchor ==> k == HeaderLine(0) + 1
  {
    TitleNotHeading(today.month, WeekNumber(today), today.year);
    LayoutAnchor(TitleLine(MonthName(today.month), WeekNumber(today), today.year), WeekHeaders(today));
  }

  /** The file name `create_weekly_note` gives the note. */
  function NoteName(today: Date): string
    requires ValidDate(today)
  {
    NoteFilename(OrdinalWeek(WeekNumber(today), today), MonthName(today.month), today.year)
  }

  /** `create_weekly_note` where the global names `bound` are defined: it
      builds the text, then asks for the ordinal, which raises unless
      `calendar` is bound; otherwise the file name and the text it writes. */
  function WeeklyNoteIn(today: Date, bound: set<string>): (r: Raised<(string, string)>)
    requires ValidDate(today)
  {
    match OrdinalWeekIn(WeekNumber(today), today, bound)
    case NameError(name) => NameError(name)
    case Returns(ordinal) => Returns((NoteFilename(ordinal, MonthName(today.month), today.year), NoteContent(today)))
  }

  /** As written, no day produces a note: every call raises `NameError`. */
  lemma AsWrittenNeverWrites(today: Date)
    requires ValidDate(today)
    ensures WeeklyNoteIn(today, ModuleNames) == NameError("calendar")
  {
    CalendarUnbound();
  }

  lemma CalendarUnbound()
    ensures "calendar" !in ModuleNames
  {
  }

  /** With `calendar` imported, every day produces a note whose name the
      weekly-note glob finds and whose lines are the template's. */
  lemma WeeklyNoteWritten(today: Date)
    requires ValidDate(today)
    ensures var r := WeeklyNoteIn(today, ModuleNames + {"calendar"});
      r.Returns? && r.value.0 == NoteName(today) && WeekGlob(r.value.0) &&
      Split(r.value.1) == NoteLines(today)
  {
    FilenameFound(OrdinalWeek(WeekNumber(today), today), MonthName(today.month), today.year);
    NoteHeaders(today);
  }
}
