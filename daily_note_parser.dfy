/** Calendar tasks into the weekly note, older pipeline
    (`inserir_tarefas_do_dia` and `inserir_calendario_no_markdown` of
    `core/daily_note_parser.py`).

    The note is its list of lines. Each day section (its header line up to
    the next header) receives `- [ ] task` for every calendar task of its
    day whose text none of its checkbox lines carries yet, and then a blank
    line closes it. */
module DailyNoteParser {
  import opened Text
  import opened Dict
  import opened CalendarParse
  import opened CalendarEvents

  // ---------------------------------------------------------------------
  // One day
  // ---------------------------------------------------------------------

  /** `existing_task_texts`: the texts after the checkbox of the lines that
      start with `- [`, in order. */
  function TaskTexts(section: seq<string>): seq<string> {
    if section == [] then []
    else
      var l := section[|section| - 1];
      TaskTexts(section[..|section| - 1]) + (if StartsWith(l, "- [") then [CheckedText(l)] else [])
  }

  /** The task lines appended for `tasks` given the texts already present. */
  function NewTasks(existing: seq<string>, tasks: seq<string>): seq<string> {
    if tasks == [] then []
    else
      var t := Strip(tasks[|tasks| - 1]);
      NewTasks(existing, tasks[..|tasks| - 1]) + (if t in existing then [] else [Box + t])
  }

  /** The section with its new task lines, before the closing blank line. */
  function WithTasks(key: string, section: seq<string>, calendar: map<string, seq<string>>): seq<string> {
    section + if key in calendar then NewTasks(TaskTexts(section), calendar[key]) else []
  }

  /** `inserir_tarefas_do_dia(day_key, section_lines, google_calendar)` */
  function DayLines(key: string, section: seq<string>, calendar: map<string, seq<string>>): seq<string> {
    var r := WithTasks(key, section, calendar);
    if r != [] && Strip(r[|r| - 1]) != "" then r + [""] else r
  }

  method AddDayTasks(key: string, section: seq<string>, calendar: map<string, seq<string>>)
    returns (result: seq<string>)
    ensures result == DayLines(key, section, calendar)
  {
    result := section;
    if key in calendar {
      var existing := TaskTexts(section);
      var tasks := calendar[key];
      for i := 0 to |tasks|
        invariant result == section + NewTasks(existing, tasks[..i])
      {
        assert tasks[..i + 1][..i] == tasks[..i];
        if Strip(tasks[i]) !in existing {
          result := result + [Box + Strip(tasks[i])];
        }
      }
      assert tasks[..|tasks|] == tasks;
    }
    if result != [] && Strip(result[|result| - 1]) != "" {
      result := result + [""];
    }
  }

  /** A text is present exactly when a line starting `- [` carries it,
      whatever the state of its checkbox. */
  lemma {:induction false} TaskTextsSpec(section: seq<string>, t: string)
    ensures t in TaskTexts(section) <==>
      exists i :: 0 <= i < |section| && StartsWith(section[i], "- [") && CheckedText(section[i]) == t
  {
    if section != [] {
      var init := section[..|section| - 1];
      TaskTextsSpec(init, t);
      assert forall i :: 0 <= i < |init| ==> init[i] == section[i];
    }
  }

  lemma {:induction false} TaskTextsAppend(a: seq<string>, b: seq<string>)
    ensures TaskTexts(a + b) == TaskTexts(a) + TaskTexts(b)
    decreases |b|
  {
    if b == [] {
      assert a + b == a;
    } else {
      TaskTextsAppend(a, b[..|b| - 1]);
      assert (a + b)[..|a + b| - 1] == a + b[..|b| - 1];
    }
  }

  /** `- [ ] task` is appended exactly for a task whose stripped text is not
      present; there are never more new lines than tasks. */
  lemma {:induction false} NewTasksSpec(existing: seq<string>, tasks: seq<string>)
    ensures |NewTasks(existing, tasks)| <= |tasks|
    ensures forall x :: x in NewTasks(existing, tasks) <==>
      exists t :: t in tasks && Strip(t) !in existing && x == Box + Strip(t)
  {
    if tasks != [] {
      var init, last := tasks[..|tasks| - 1], tasks[|tasks| - 1];
      NewTasksSpec(existing, init);
      assert tasks == init + [last];
      var extra := if Strip(last) in existing then [] else [Box + Strip(last)];
      assert NewTasks(existing, tasks) == NewTasks(existing, init) + extra;
      forall x | x in NewTasks(existing, tasks)
        ensures exists t :: t in tasks && Strip(t) !in existing && x == Box + Strip(t)
      {
        if x in extra {
          assert last in tasks;
        } else {
          var t :| t in init && Strip(t) !in existing && x == Box + Strip(t);
          assert t in tasks;
        }
      }
      forall t | t in tasks && Strip(t) !in existing
        ensures Box + Strip(t) in NewTasks(existing, tasks)
      {
        if t != last {
          assert t in init;
        }
      }
    }
  }

  /** After the new lines, every task's stripped text is present. */
  lemma {:induction false} TasksPresent(existing: seq<string>, tasks: seq<string>)
    ensures forall t :: t in tasks ==> Strip(t) in existing || Strip(t) in TaskTexts(NewTasks(existing, tasks))
  {
    var added := NewTasks(existing, tasks);
    NewTasksSpec(existing, tasks);
    forall t | t in tasks && Strip(t) !in existing
      ensures Strip(t) in TaskTexts(added)
    {
      var x := Box + Strip(t);
      assert x in added;
      var i :| 0 <= i < |added| && added[i] == x;
      StripIdempotent(t);
      BoxLine(Strip(t));
      assert x[..3] == "- [";
      TaskTextsSpec(added, Strip(t));
    }
  }

  /** When every task's text is present nothing is added. */
  lemma AllPresentAddsNothing(existing: seq<string>, tasks: seq<string>)
    requires forall t :: t in tasks ==> Strip(t) in existing
    ensures NewTasks(existing, tasks) == []
  {
    NewTasksSpec(existing, tasks);
  }

  /** The section is kept as it is at the front; what follows it is new task
      lines and at most one blank line, which ends the result. Without an
      entry for the day no task line is added. */
  lemma DayShape(key: string, section: seq<string>, calendar: map<string, seq<string>>)
    ensures var d := DayLines(key, section, calendar);
      |section| <= |d| && d[..|section|] == section &&
      (forall i :: |section| <= i < |d| ==> d[i] == "" || StartsWith(d[i], Box)) &&
      (d != [] ==> Strip(d[|d| - 1]) == "") &&
      (key !in calendar ==> d == section || d == section + [""])
  {
    var added := if key in calendar then NewTasks(TaskTexts(section), calendar[key]) else [];
    NewTasksSpec(TaskTexts(section), if key in calendar then calendar[key] else []);
    var d := DayLines(key, section, calendar);
    forall i | |section| <= i < |d| ensures d[i] == "" || StartsWith(d[i], Box) {
      if i < |section| + |added| {
        assert d[i] == added[i - |section|];
        assert added[i - |section|] in added;
      }
    }
  }

  /** The new lines of a day open no day. */
  lemma DayAddsNoHeader(key: string, section: seq<string>, calendar: map<string, seq<string>>)
    ensures var d := DayLines(key, section, calendar);
      |section| <= |d| && d[..|section|] == section && NoHeader(d[|section|..])
  {
    DayShape(key, section, calendar);
    var d := DayLines(key, section, calendar);
    forall i | 0 <= i < |d[|section|..]| ensures DayKey(d[|section|..][i]).None? {
      var x := d[|section| + i];
      if x != "" {
        assert x[0] == Box[0];
      }
      NotHeader(x);
    }
  }

  /** A second pass over a day adds nothing: every task's text is then
      present, and the day already ends in a blank line. */
  lemma DayIdempotent(key: string, section: seq<string>, calendar: map<string, seq<string>>)
    ensures DayLines(key, DayLines(key, section, calendar), calendar) == DayLines(key, section, calendar)
  {
    var d := DayLines(key, section, calendar);
    DayShape(key, section, calendar);
    if key in calendar {
      DayTasksPresent(key, section, calendar);
      AllPresentAddsNothing(TaskTexts(d), calendar[key]);
    }
    assert WithTasks(key, d, calendar) == d;
  }

  /** After a pass over a day, each of its tasks' texts is present. */
  lemma DayTasksPresent(key: string, section: seq<string>, calendar: map<string, seq<string>>)
    requires key in calendar
    ensures forall t :: t in calendar[key] ==> Strip(t) in TaskTexts(DayLines(key, section, calendar))
  {
    var tasks := calendar[key];
    var ex := TaskTexts(section);
    var added := NewTasks(ex, tasks);
    var r := section + added;
    var d := DayLines(key, section, calendar);
    assert d == r || d == r + [""];
    if d == r + [""] {
      TaskTextsAppend(r, [""]);
      assert TaskTexts([""]) == TaskTexts([]) + [];
    }
    assert TaskTexts(d) == TaskTexts(r);
    TaskTextsAppend(section, added);
    TasksPresent(ex, tasks);
  }

  // ---------------------------------------------------------------------
  // The whole note
  // ---------------------------------------------------------------------

  /** The loop's state: the lines written, the day being collected and the
      lines collected for it. */
  datatype NoteScan = NoteScan(updated: seq<string>, current: Option<string>, section: seq<string>)

  /** One turn of `for line in md_lines`. */
  function Feed(st: NoteScan, line: string, calendar: map<string, seq<string>>): NoteScan {
    match DayKey(line)
    case Some(k) =>
      if st.current.Some? then NoteScan(st.updated + DayLines(st.current.value, st.section, calendar), Some(k), [line])
      else NoteScan(st.updated, Some(k), st.section + [line])
    case None => NoteScan(st.updated, st.current, st.section + [line])
  }

  function FeedAll(st: NoteScan, lines: seq<string>, calendar: map<string, seq<string>>): NoteScan {
    if lines == [] then st
    else Feed(FeedAll(st, lines[..|lines| - 1], calendar), lines[|lines| - 1], calendar)
  }

  /** After the loop: the last day is completed, or, with no day at all,
      the lines are written as they are. */
  function Finish(st: NoteScan, calendar: map<string, seq<string>>): seq<string> {
    if st.current.Some? then st.updated + DayLines(st.current.value, st.section, calendar)
    else st.updated + st.section
  }

  const Start := NoteScan([], None, [])

  /** `inserir_calendario_no_markdown(md_lines, google_calendar)` */
  function Inserted(md: seq<string>, calendar: map<string, seq<string>>): seq<string> {
    Finish(FeedAll(Start, md, calendar), calendar)
  }

  method InsertCalendar(md: seq<string>, calendar: map<string, seq<string>>) returns (updated: seq<string>)
    ensures updated == Inserted(md, calendar)
  {
    updated := [];
    var current: Option<string> := None;
    var section: seq<string> := [];
    for i := 0 to |md|
      invariant NoteScan(updated, current, section) == FeedAll(Start, md[..i], calendar)
    {
      assert md[..i + 1][..i] == md[..i];
      var line := md[i];
      var key := DayKey(line);
      if key.Some? {
        if current.Some? {
          var day := AddDayTasks(current.value, section, calendar);
          updated := updated + day;
          section := [];
        }
        current := key;
      }
      section := section + [line];
    }
    assert md[..|md|] == md;
    if current.Some? {
      var day := AddDayTasks(current.value, section, calendar);
      updated := updated + day;
    } else {
      updated := updated + section;
    }
  }

  // ---------------------------------------------------------------------
  // What the note pass promises
  // ---------------------------------------------------------------------

  lemma {:induction false} FeedAllAppend(st: NoteScan, a: seq<string>, b: seq<string>, calendar: map<string, seq<string>>)
    ensures FeedAll(st, a + b, calendar) == FeedAll(FeedAll(st, a, calendar), b, calendar)
    decreases |b|
  {
    if b == [] {
      assert a + b == a;
    } else {
      FeedAllAppend(st, a, b[..|b| - 1], calendar);
      assert (a + b)[..|a + b| - 1] == a + b[..|b| - 1];
    }
  }

  /** Lines that open no day only join the section being collected. */
  lemma {:induction false} FeedNoHeader(st: NoteScan, b: seq<string>, calendar: map<string, seq<string>>)
    requires NoHeader(b)
    ensures FeedAll(st, b, calendar) == NoteScan(st.updated, st.current, st.section + b)
    decreases |b|
  {
    if b == [] {
      assert st.section + b == st.section;
    } else {
      var init := b[..|b| - 1];
      FeedNoHeader(st, init, calendar);
      assert DayKey(b[|b| - 1]).None?;
      assert st.section + init + [b[|b| - 1]] == st.section + b;
    }
  }

  /** Once a day header has been seen, a day is being collected. */
  lemma {:induction false} FeedSeesHeader(st: NoteScan, a: seq<string>, calendar: map<string, seq<string>>)
    requires st.current.Some? || !NoHeader(a)
    ensures FeedAll(st, a, calendar).current.Some?
  {
    if a != [] {
      var init, l := a[..|a| - 1], a[|a| - 1];
      if DayKey(l).None? {
        assert st.current.Some? || !NoHeader(init) by {
          if !NoHeader(a) {
            var i :| 0 <= i < |a| && DayKey(a[i]).Some?;
            assert i < |init| && init[i] == a[i];
          }
        }
        FeedSeesHeader(st, init, calendar);
      }
    }
  }

  /** With no day header the output equals the input. */
  lemma NoHeaderUnchanged(md: seq<string>, calendar: map<string, seq<string>>)
    requires NoHeader(md)
    ensures Inserted(md, calendar) == md
  {
    FeedNoHeader(Start, md, calendar);
  }

  /** With a single day header, the whole note, including the lines before
      the header, is that day's section. */
  lemma SingleDay(md: seq<string>, j: int, calendar: map<string, seq<string>>)
    requires 0 <= j < |md| && NoHeader(md[..j]) && DayKey(md[j]).Some? && NoHeader(md[j + 1..])
    ensures Inserted(md, calendar) == DayLines(DayKey(md[j]).value, md, calendar)
  {
    var a, h, c := md[..j], md[j], md[j + 1..];
    assert md == a + [h] + c;
    FeedAllAppend(Start, a + [h], c, calendar);
    FeedAllAppend(Start, a, [h], calendar);
    FeedNoHeader(Start, a, calendar);
    assert FeedAll(Start, a + [h], calendar) == NoteScan([], DayKey(h), a + [h]);
    FeedNoHeader(NoteScan([], DayKey(h), a + [h]), c, calendar);
  }

  /** A note whose last day header comes after an earlier one is written as
      the note up to that header followed by the last day. */
  lemma LastDay(a: seq<string>, h: string, c: seq<string>, calendar: map<string, seq<string>>)
    requires !NoHeader(a) && DayKey(h).Some? && NoHeader(c)
    ensures Inserted(a + [h] + c, calendar) == Inserted(a, calendar) + DayLines(DayKey(h).value, [h] + c, calendar)
  {
    FeedAllAppend(Start, a + [h], c, calendar);
    FeedAllAppend(Start, a, [h], calendar);
    FeedSeesHeader(Start, a, calendar);
    var st := FeedAll(Start, a, calendar);
    var st1 := NoteScan(st.updated + DayLines(st.current.value, st.section, calendar), DayKey(h), [h]);
    assert FeedAll(Start, a + [h], calendar) == st1;
    FeedNoHeader(st1, c, calendar);
  }

  /** The index of the last day header, or -1. */
  function LastHeader(md: seq<string>): (j: int)
    ensures -1 <= j < |md|
    ensures j < 0 ==> NoHeader(md)
    ensures j >= 0 ==> DayKey(md[j]).Some? && NoHeader(md[j + 1..])
  {
    if md == [] then -1
    else if DayKey(md[|md| - 1]).Some? then |md| - 1
    else
      var j := LastHeader(md[..|md| - 1]);
      if j >= 0 then
        NoHeaderAfter(md, j);
        j
      else
        NoHeaderLast(md);
        j
  }

  /** A line that opens no day, after lines that open none from `j + 1`. */
  lemma NoHeaderAfter(md: seq<string>, j: int)
    requires 0 <= j < |md| - 1 && NoHeader(md[..|md| - 1][j + 1..]) && DayKey(md[|md| - 1]).None?
    ensures NoHeader(md[j + 1..])
  {
    var t, u := md[j + 1..], md[..|md| - 1][j + 1..];
    forall i | 0 <= i < |t|
      ensures DayKey(t[i]).None?
    {
      if i < |u| {
        assert t[i] == u[i];
      }
    }
  }

  /** A line that opens no day, after lines that open none. */
  lemma NoHeaderLast(md: seq<string>)
    requires md != [] && NoHeader(md[..|md| - 1]) && DayKey(md[|md| - 1]).None?
    ensures NoHeader(md)
  {
    forall i | 0 <= i < |md|
      ensures DayKey(md[i]).None?
    {
      if i < |md| - 1 {
        assert md[i] == md[..|md| - 1][i];
      }
    }
  }

  /** The note's day headers survive the pass. */
  lemma KeepsHeader(md: seq<string>, calendar: map<string, seq<string>>)
    requires !NoHeader(md)
    ensures !NoHeader(Inserted(md, calendar))
  {
    var j := LastHeader(md);
    var h := md[j];
    var k := DayKey(h).value;
    if NoHeader(md[..j]) {
      SingleDay(md, j, calendar);
      DayShape(k, md, calendar);
      assert Inserted(md, calendar)[j] == h;
    } else {
      assert md == md[..j] + [h] + md[j + 1..];
      LastDay(md[..j], h, md[j + 1..], calendar);
      DayShape(k, [h] + md[j + 1..], calendar);
      assert Inserted(md, calendar)[|Inserted(md[..j], calendar)|] == h;
    }
  }

  /** The pass only inserts: the note's lines are a subsequence of the
      result, in order. */
  lemma {:induction false} OnlyInserts(md: seq<string>, calendar: map<string, seq<string>>)
    ensures Subseq(md, Inserted(md, calendar))
    decreases |md|
  {
    var j := LastHeader(md);
    if j < 0 {
      NoHeaderUnchanged(md, calendar);
      SubseqRefl(md);
    } else if NoHeader(md[..j]) {
      SingleDay(md, j, calendar);
      DaySubseq(DayKey(md[j]).value, md, calendar);
    } else {
      var a, h, c := md[..j], md[j], md[j + 1..];
      assert md == a + [h] + c;
      OnlyInserts(a, calendar);
      OnlyInsertsLastDay(a, h, c, calendar);
    }
  }

  lemma OnlyInsertsLastDay(a: seq<string>, h: string, c: seq<string>, calendar: map<string, seq<string>>)
    requires !NoHeader(a) && DayKey(h).Some? && NoHeader(c)
    requires Subseq(a, Inserted(a, calendar))
    ensures Subseq(a + [h] + c, Inserted(a + [h] + c, calendar))
  {
    LastDay(a, h, c, calendar);
    DaySubseq(DayKey(h).value, [h] + c, calendar);
    SubseqAppend(a, Inserted(a, calendar), [h] + c, DayLines(DayKey(h).value, [h] + c, calendar));
    assert a + ([h] + c) == a + [h] + c;
  }

  lemma DaySubseq(key: string, section: seq<string>, calendar: map<string, seq<string>>)
    ensures Subseq(section, DayLines(key, section, calendar))
  {
    var d := DayLines(key, section, calendar);
    DayShape(key, section, calendar);
    var extra := d[|section|..];
    assert d == section + extra;
    SubseqRefl(section);
    SubseqRefl([]);
    SubseqPrefix([], extra, []);
    assert extra + [] == extra;
    SubseqAppend(section, section, [], extra);
    assert section + [] == section;
  }

  /** Running the pass again on its own output with the same calendar
      leaves it unchanged. */
  lemma {:induction false} Idempotent(md: seq<string>, calendar: map<string, seq<string>>)
    ensures Inserted(Inserted(md, calendar), calendar) == Inserted(md, calendar)
    decreases |md|
  {
    var j := LastHeader(md);
    if j < 0 {
      NoHeaderUnchanged(md, calendar);
    } else if NoHeader(md[..j]) {
      IdempotentOneDay(md, j, calendar);
    } else {
      var a, h, c := md[..j], md[j], md[j + 1..];
      assert md == a + [h] + c;
      Idempotent(a, calendar);
      IdempotentLastDay(a, h, c, calendar);
    }
  }

  lemma IdempotentOneDay(md: seq<string>, j: int, calendar: map<string, seq<string>>)
    requires 0 <= j < |md| && NoHeader(md[..j]) && DayKey(md[j]).Some? && NoHeader(md[j + 1..])
    ensures Inserted(Inserted(md, calendar), calendar) == Inserted(md, calendar)
  {
    var k := DayKey(md[j]).value;
    SingleDay(md, j, calendar);
    var d := DayLines(k, md, calendar);
    DayAddsNoHeader(k, md, calendar);
    ExtendedDay(md, j, d);
    SingleDay(d, j, calendar);
    DayIdempotent(k, md, calendar);
  }

  /** Lines that open no day, appended after a note whose only day header
      is line `j`, leave `j` its only day header. */
  lemma ExtendedDay(md: seq<string>, j: int, d: seq<string>)
    requires 0 <= j < |md| <= |d| && d[..|md|] == md
    requires NoHeader(md[..j]) && NoHeader(md[j + 1..]) && NoHeader(d[|md|..])
    ensures d[j] == md[j] && NoHeader(d[..j]) && NoHeader(d[j + 1..])
  {
    assert d[j] == d[..|md|][j];
    assert d[..j] == md[..j];
    assert d[j + 1..] == md[j + 1..] + d[|md|..];
    NoHeaderJoin(md[j + 1..], d[|md|..]);
  }

  lemma IdempotentLastDay(a: seq<string>, h: string, c: seq<string>, calendar: map<string, seq<string>>)
    requires !NoHeader(a) && DayKey(h).Some? && NoHeader(c)
    requires Inserted(Inserted(a, calendar), calendar) == Inserted(a, calendar)
    ensures Inserted(Inserted(a + [h] + c, calendar), calendar) == Inserted(a + [h] + c, calendar)
  {
    var k := DayKey(h).value;
    LastDay(a, h, c, calendar);
    var d := DayLines(k, [h] + c, calendar);
    DayOfSection(k, h, c, calendar);
    var c2 := d[1..];
    assert d == [h] + c2;
    KeepsHeader(a, calendar);
    LastDay(Inserted(a, calendar), h, c2, calendar);
    DayIdempotent(k, [h] + c, calendar);
    assert Inserted(a, calendar) + [h] + c2 == Inserted(a + [h] + c, calendar);
  }

  /** A day section stays one: its header and then no other header. */
  lemma DayOfSection(k: string, h: string, c: seq<string>, calendar: map<string, seq<string>>)
    requires NoHeader(c)
    ensures var d := DayLines(k, [h] + c, calendar); |d| >= 1 && d[0] == h && NoHeader(d[1..])
  {
    DayAddsNoHeader(k, [h] + c, calendar);
    HeaderThenNone(h, c, DayLines(k, [h] + c, calendar));
  }

  /** A line followed by header-free lines, extended by header-free lines. */
  lemma HeaderThenNone(h: string, c: seq<string>, d: seq<string>)
    requires NoHeader(c) && |[h] + c| <= |d| && d[..|[h] + c|] == [h] + c && NoHeader(d[|[h] + c|..])
    ensures |d| >= 1 && d[0] == h && NoHeader(d[1..])
  {
    assert d[1..] == c + d[|[h] + c|..];
    NoHeaderJoin(c, d[|[h] + c|..]);
  }

  lemma NoHeaderJoin(a: seq<string>, b: seq<string>)
    requires NoHeader(a) && NoHeader(b)
    ensures NoHeader(a + b)
  {
    assert forall i :: 0 <= i < |a + b| ==> (a + b)[i] == if i < |a| then a[i] else b[i - |a|];
  }

  // ---------------------------------------------------------------------
  // The file `processar_arquivo_semanal` writes
  // ---------------------------------------------------------------------

  /** `main` then `processar_arquivo_semanal`: the note's `splitlines()`
      with the tasks of the parsed calendar file inserted, written back as
      `"\n".join(updated_lines)`. */
  function DailyNoteText(note: string, calendarText: string): string {
    Join(Inserted(SplitLines(note), ParseCalendar(calendarText)))
  }

  lemma {:induction false} NewTasksOneLine(existing: seq<string>, tasks: seq<string>)
    requires AllNoNewline(tasks)
    ensures AllNoNewline(NewTasks(existing, tasks))
  {
    if tasks != [] {
      var init, t := tasks[..|tasks| - 1], tasks[|tasks| - 1];
      assert AllNoNewline(init) by {
        forall k | 0 <= k < |init| ensures NoNewline(init[k]) {
          assert init[k] == tasks[k];
        }
      }
      NewTasksOneLine(existing, init);
      StripNoNewline(t);
      var x := Box + Strip(t);
      forall j | 0 <= j < |x| ensures x[j] != '\n' {
        if j >= |Box| { assert x[j] == Strip(t)[j - |Box|]; }
      }
      AllNoNewlineJoin(NewTasks(existing, init), if Strip(t) in existing then [] else [x]);
    }
  }

  lemma DayLinesOneLine(key: string, section: seq<string>, calendar: map<string, seq<string>>)
    requires AllNoNewline(section) && CalendarOneLine(calendar)
    ensures AllNoNewline(DayLines(key, section, calendar))
  {
    if key in calendar {
      NewTasksOneLine(TaskTexts(section), calendar[key]);
      AllNoNewlineJoin(section, NewTasks(TaskTexts(section), calendar[key]));
    }
    var w := WithTasks(key, section, calendar);
    AllNoNewlineJoin(w, [""]);
  }

  /** The loop keeps its written and collected lines single lines. */
  lemma {:induction false} FeedAllOneLine(lines: seq<string>, calendar: map<string, seq<string>>)
    requires AllNoNewline(lines) && CalendarOneLine(calendar)
    ensures AllNoNewline(FeedAll(Start, lines, calendar).updated)
    ensures AllNoNewline(FeedAll(Start, lines, calendar).section)
  {
    if lines != [] {
      var init, l := lines[..|lines| - 1], lines[|lines| - 1];
      assert AllNoNewline(init) by {
        forall k | 0 <= k < |init| ensures NoNewline(init[k]) {
          assert init[k] == lines[k];
        }
      }
      FeedAllOneLine(init, calendar);
      var st := FeedAll(Start, init, calendar);
      AllNoNewlineJoin(st.section, [l]);
      AllNoNewlineJoin([], [l]);
      if st.current.Some? {
        DayLinesOneLine(st.current.value, st.section, calendar);
        AllNoNewlineJoin(st.updated, DayLines(st.current.value, st.section, calendar));
      }
    }
  }

  lemma InsertedOneLine(md: seq<string>, calendar: map<string, seq<string>>)
    requires AllNoNewline(md) && CalendarOneLine(calendar)
    ensures AllNoNewline(Inserted(md, calendar))
  {
    FeedAllOneLine(md, calendar);
    var st := FeedAll(Start, md, calendar);
    if st.current.Some? {
      DayLinesOneLine(st.current.value, st.section, calendar);
      AllNoNewlineJoin(st.updated, DayLines(st.current.value, st.section, calendar));
    } else {
      AllNoNewlineJoin(st.updated, st.section);
    }
  }

  /** Reading the written file back line by line gives the updated lines,
      less a final blank one: the file is written without a final line
      break. */
  lemma DailyNoteReadsBack(note: string, calendarText: string)
    ensures var out := Inserted(SplitLines(note), ParseCalendar(calendarText));
      (out == [] ==> SplitLines(DailyNoteText(note, calendarText)) == []) &&
      (out != [] ==> SplitLines(DailyNoteText(note, calendarText)) == DropLastEmpty(out))
  {
    SplitLinesNoNewlines(note);
    CalendarIsOneLine(calendarText);
    InsertedOneLine(SplitLines(note), ParseCalendar(calendarText));
    SplitLinesJoinAny(Inserted(SplitLines(note), ParseCalendar(calendarText)));
  }

  /** A note without a day, ending in a line break, is written back
      without it. */
  lemma DailyDropsFinalNewline()
    ensures DailyNoteText("- [ ] a\n", "") == "- [ ] a"
  {
    var ls := ["- [ ] a", ""];
    assert Join(ls) == "- [ ] a\n";
    assert AllNoNewline(ls);
    SplitLinesJoinAny(ls);
    assert SplitLines("- [ ] a\n") == ["- [ ] a"];
    NotHeader("- [ ] a");
    NoHeaderUnchanged(["- [ ] a"], ParseCalendar(""));
  }
}
