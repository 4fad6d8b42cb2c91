/** The week arithmetic and the weekly-note template of
    `core/note_generator.py`: the week of the month counted in calendar
    weeks that start on Monday, its ordinal name, and the note's file name
    and text. */
module NoteGenerator {
  import opened Text
  import opened Dict
  import opened Dates
  import opened DayNotes
  import opened WeekDates
  import WeeklyTasks
  import NoteManager

  /** `datetime(today.year, today.month, 1).weekday()` */
  function FirstWeekday(today: Date): (fw: int)
    requires ValidDate(today)
    ensures 0 <= fw < 7
  {
    Weekday(Date(today.year, today.month, 1))
  }

  /** `get_week_number`: the calendar week (Monday to Sunday) of the month
      that today falls in, the week holding the 1st being week 1. */
  function WeekNumber(today: Date): (w: int)
    requires ValidDate(today)
    ensures 1 <= w <= 6
    ensures today.day == 1 ==> w == 1
  {
    (today.day + FirstWeekday(today) - 1) / 7 + 1
  }

  /** The weekday of day `d` of a month is the weekday of the 1st moved on
      `d - 1` days. */
  lemma WeekdayInMonth(today: Date)
    requires ValidDate(today)
    ensures Weekday(today) == (FirstWeekday(today) + today.day - 1) % 7
  {
    var first := Date(today.year, today.month, 1);
    assert DayNumber(today) == DayNumber(first) + today.day - 1;
    ShiftMod(DayNumber(first) + 6, today.day - 1);
  }

  lemma ShiftMod(a: int, b: int)
    ensures (a + b) % 7 == (a % 7 + b) % 7
  {
    var q := a / 7;
    assert a == 7 * q + a % 7;
    assert a + b == 7 * q + (a % 7 + b);
  }

  /** Moving from one day to the next within a month, the week number grows
      by one exactly when the next day is a Monday, and otherwise stays. */
  lemma NextDayWeek(today: Date)
    requires ValidDate(today) && today.day < LastDayOf(today)
    ensures var next := Date(today.year, today.month, today.day + 1);
      ValidDate(next) &&
      WeekNumber(next) == WeekNumber(today) + (if Weekday(next) == 0 then 1 else 0)
  {
    var next := Date(today.year, today.month, today.day + 1);
    WeekdayInMonth(next);
    StepWeek(today.day + FirstWeekday(today) - 1);
  }

  /** `n // 7` grows by one from `n` to `n + 1` exactly when `n + 1` is a
      multiple of 7. */
  lemma StepWeek(n: int)
    requires n >= 0
    ensures (n + 1) / 7 == n / 7 + (if (n + 1) % 7 == 0 then 1 else 0)
  {
    var q, r := n / 7, n % 7;
    assert n == 7 * q + r;
    if r == 6 {
      assert n + 1 == 7 * (q + 1);
    } else {
      assert n + 1 == 7 * q + (r + 1);
    }
  }

  /** Within a month the week number never decreases. */
  lemma {:induction false} WeekMonotone(today: Date, later: int)
    requires ValidDate(today) && today.day <= later <= LastDayOf(today)
    ensures ValidDate(Date(today.year, today.month, later))
    ensures WeekNumber(today) <= WeekNumber(Date(today.year, today.month, later))
    decreases later - today.day
  {
    if later > today.day {
      var next := Date(today.year, today.month, today.day + 1);
      NextDayWeek(today);
      WeekMonotone(next, later);
    }
  }

  /** The `ORDINALS` table with its `f"{week_number}th"` default: week 5 is
      named `"last"` and a sixth week `"6th"`. */
  function Ordinal(n: int): (r: string)
    ensures 1 <= n <= 4 ==> r == ["first", "second", "third", "fourth"][n - 1]
    ensures n == 5 <==> r == "last"
    ensures !(1 <= n <= 5) ==> r == IntToString(n) + "th"
  {
    if n == 1 then "first" else if n == 2 then "second" else if n == 3 then "third"
    else if n == 4 then "fourth" else if n == 5 then "last"
    else
      var r := IntToString(n) + "th";
      assert r[|r| - 1] == 'h';
      r
  }

  /** A month can have a sixth week: 30 January 2023 is in it, and its
      note is named `"6th"`. */
  lemma SixthWeek()
    ensures ValidDate(Date(2023, 1, 30)) && WeekNumber(Date(2023, 1, 30)) == 6
    ensures Ordinal(WeekNumber(Date(2023, 1, 30))) == "6th"
  {
    assert FirstWeekday(Date(2023, 1, 30)) == 6;
  }

  /** The two week formulas disagree: 2 January 2023 is a Monday in a month
      that began on a Sunday, so it is week 2 here and week 1 in
      `modules/note_manager.py`. */
  lemma FormulasDisagree()
    ensures ValidDate(Date(2023, 1, 2))
    ensures WeekNumber(Date(2023, 1, 2)) == 2 && NoteManager.WeekNumber(Date(2023, 1, 2)) == 1
  {
    assert FirstWeekday(Date(2023, 1, 2)) == 6;
  }

  /** Line `k` of the template of `generate_weekly_note_content` around a
      title and seven day headers: title, blank, link, tag, blank, the
      Monday header, the anchor task, blank, the six other headers with no
      blank line between them, and two blank lines at the end. */
  function LineAt(title: string, hs: seq<string>, k: int): string
    requires |hs| == 7 && 0 <= k < 16
  {
    if k == 0 then title
    else if k == 2 then "[[this-week|this week]]"
    else if k == 3 then "#this-week"
    else if k == 5 then hs[0]
    else if k == 6 then WeeklyTasks.Anchor
    else if 8 <= k <= 13 then hs[k - 7]
    else ""
  }

  function Layout(title: string, hs: seq<string>): (ls: seq<string>)
    requires |hs| == 7
    ensures |ls| == 16 && forall k :: 0 <= k < 16 ==> ls[k] == LineAt(title, hs, k)
  {
    seq(16, k requires 0 <= k < 16 => LineAt(title, hs, k))
  }

  /** The line of the header for day `i` of the week in the template. */
  function HeaderLine(i: int): (k: int)
    requires 0 <= i < 7
    ensures 5 <= k < 14
  {
    if i == 0 then 5 else 7 + i
  }

  /** Each header sits at its line, and when the title and headers are
      single lines, so is every line. */
  lemma LayoutLines(title: string, hs: seq<string>)
    requires |hs| == 7
    ensures forall i :: 0 <= i < 7 ==> Layout(title, hs)[HeaderLine(i)] == hs[i]
    ensures NoNewline(title) && (forall i :: 0 <= i < 7 ==> NoNewline(hs[i])) ==> AllNoNewline(Layout(title, hs))
  {
    NoteManager.FixedLinesOneLine();
  }

  /** When the title is no heading, the headers are the only heading lines;
      from Tuesday on they follow one another directly. */
  lemma LayoutHeadings(title: string, hs: seq<string>)
    requires |hs| == 7 && !IsHeading(title)
    ensures forall k :: 0 <= k < 16 && IsHeading(Layout(title, hs)[k]) ==> exists i :: 0 <= i < 7 && k == HeaderLine(i)
    ensures forall i :: 1 <= i < 6 ==> HeaderLine(i) + 1 == HeaderLine(i + 1)
  {
    var ls := Layout(title, hs);
    NoteManager.AnchorNotHeading();
    forall k | 0 <= k < 16 && IsHeading(ls[k])
      ensures exists i :: 0 <= i < 7 && k == HeaderLine(i)
    {
      if k == 5 {
        assert k == HeaderLine(0);
      } else {
        assert k == HeaderLine(k - 7);
      }
    }
  }

  /** The anchor task is the line after the Monday header, followed by a
      blank line and then the Tuesday header; no other line is the anchor. */
  lemma LayoutAnchor(title: string, hs: seq<string>)
    requires |hs| == 7
    requires title != WeeklyTasks.Anchor && forall i :: 0 <= i < 7 ==> IsHeading(hs[i])
    ensures var ls := Layout(title, hs);
      ls[HeaderLine(0) + 1] == WeeklyTasks.Anchor && ls[HeaderLine(0) + 2] == "" &&
      HeaderLine(0) + 3 == HeaderLine(1) &&
      forall k :: 0 <= k < 16 && ls[k] == WeeklyTasks.Anchor ==> k == HeaderLine(0) + 1
  {
    var ls := Layout(title, hs);
    NoteManager.AnchorNotHeading();
    forall k | 0 <= k < 16 && k != 6
      ensures ls[k] != WeeklyTasks.Anchor
    {
      assert ls[k] == LineAt(title, hs, k);
    }
  }

  /** The template lines of `generate_weekly_note_content` for today. */
  function NoteLines(today: Date): (ls: seq<string>)
    requires ValidDate(today)
    ensures |ls| == 16
  {
    Layout(TitleLine(MonthName(today.month), WeekNumber(today), today.year), WeekHeaders(today))
  }

  /** `generate_weekly_note_content(today)` */
  function NoteContent(today: Date): string
    requires ValidDate(today)
  {
    Join(NoteLines(today))
  }

  /** Splitting the note text at line breaks gives the template lines back;
      the headers run Monday to Sunday, read back as the days of the
      current week, and no other line is a heading. */
  lemma NoteHeaders(today: Date)
    requires ValidDate(today)
    ensures Split(NoteContent(today)) == NoteLines(today)
    ensures forall i :: 0 <= i < 7 ==>
      ExtractDayDate(NoteLines(today)[HeaderLine(i)]) == Some((Names()[i], FormatDDMM(WeekDay(today, i))))
    ensures forall k :: 0 <= k < 16 && IsHeading(NoteLines(today)[k]) ==> exists i :: 0 <= i < 7 && k == HeaderLine(i)
  {
    var title := TitleLine(MonthName(today.month), WeekNumber(today), today.year);
    var hs := WeekHeaders(today);
    TitleOneLine(today.month, WeekNumber(today), today.year);
    NoteManager.TitleNotHeading(today.month, WeekNumber(today), today.year);
    LayoutLines(title, hs);
    LayoutHeadings(title, hs);
    SplitJoin(Layout(title, hs));
    forall i | 0 <= i < 7
      ensures ExtractDayDate(hs[i]) == Some((Names()[i], FormatDDMM(WeekDay(today, i))))
    {
      HeaderReadsBack(today, i);
    }
  }

  /** The Monday header is immediately followed by the anchor task, and the
      anchor occurs on no other line. */
  lemma MondaySection(today: Date)
    requires ValidDate(today)
    ensures var ls := NoteLines(today);
      ls[HeaderLine(0) + 1] == WeeklyTasks.Anchor &&
      forall k :: 0 <= k < 16 && ls[k] == WeeklyTasks.Anchor ==> k == HeaderLine(0) + 1
  {
    NoteManager.TitleNotHeading(today.month, WeekNumber(today), today.year);
    LayoutAnchor(TitleLine(MonthName(today.month), WeekNumber(today), today.year), WeekHeaders(today));
  }

  /** `final_filename` in `save_weekly_note`: found by the weekly-note
      glob, and led by the week's ordinal, which is `"last"` exactly in
      week 5. */
  function NoteName(today: Date): (name: string)
    requires ValidDate(today)
    ensures WeekGlob(name)
    ensures StartsWith(name, Ordinal(WeekNumber(today)) + "-week-")
  {
    FilenameFound(Ordinal(WeekNumber(today)), MonthName(today.month), today.year);
    NoteFilename(Ordinal(WeekNumber(today)), MonthName(today.month), today.year)
  }
}
