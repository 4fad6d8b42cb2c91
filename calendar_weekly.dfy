/** Calendar tasks into the weekly note without deduplication
    (`inserir_calendario_no_markdown` of
    `core/organize_google_calendar_weekly_tasks.py`).

    Every line is copied; right after a day header whose key has an entry
    in the calendar come `- [ ] task` for each of its tasks, in order, and
    one blank line. */
module CalendarWeekly {
  import opened Text
  import opened Dict
  import opened CalendarParse
  import opened CalendarEvents

  /** `[f"- [ ] {tarefa}" for tarefa in tasks]`, tasks taken as they are. */
  function Boxed(tasks: seq<string>): seq<string> {
    if tasks == [] then [] else Boxed(tasks[..|tasks| - 1]) + [Box + tasks[|tasks| - 1]]
  }

  lemma {:induction false} BoxedSpec(tasks: seq<string>)
    ensures |Boxed(tasks)| == |tasks|
    ensures forall i :: 0 <= i < |tasks| ==> Boxed(tasks)[i] == Box + tasks[i]
  {
    if tasks != [] {
      BoxedSpec(tasks[..|tasks| - 1]);
    }
  }

  /** The lines that follow `line` in the output besides itself. */
  function After(line: string, calendar: map<string, seq<string>>): seq<string> {
    match DayKey(line)
    case Some(k) => if k in calendar then Boxed(calendar[k]) + [""] else []
    case None => []
  }

  function AfterIn(calendar: map<string, seq<string>>): string -> seq<string> {
    line => After(line, calendar)
  }

  /** Each line, followed by what `after` puts behind it. */
  function Weave(md: seq<string>, after: string -> seq<string>): seq<string> {
    if md == [] then []
    else
      var l := md[|md| - 1];
      Weave(md[..|md| - 1], after) + [l] + after(l)
  }

  /** `inserir_calendario_no_markdown(md_lines, google_calendar)` */
  function Spliced(md: seq<string>, calendar: map<string, seq<string>>): seq<string> {
    Weave(md, AfterIn(calendar))
  }

  method InsertCalendarTasks(md: seq<string>, calendar: map<string, seq<string>>) returns (out: seq<string>)
    ensures out == Spliced(md, calendar)
  {
    out := [];
    for i := 0 to |md|
      invariant out == Weave(md[..i], AfterIn(calendar))
    {
      assert md[..i + 1][..i] == md[..i];
      var line := md[i];
      out := out + [line];
      var e := LinesAfter(line, calendar);
      out := out + e;
    }
    assert md[..|md|] == md;
  }

  /** The lines the loop appends after `line`. */
  method LinesAfter(line: string, calendar: map<string, seq<string>>) returns (e: seq<string>)
    ensures e == After(line, calendar)
  {
    e := [];
    var key := DayKey(line);
    if key.Some? && key.value in calendar {
      var tasks := calendar[key.value];
      for j := 0 to |tasks|
        invariant e == Boxed(tasks[..j])
      {
        assert tasks[..j + 1][..j] == tasks[..j];
        e := e + [Box + tasks[j]];
      }
      assert tasks[..|tasks|] == tasks;
      e := e + [""];
    }
  }

  // ---------------------------------------------------------------------
  // Weaving, whatever follows each line
  // ---------------------------------------------------------------------

  lemma {:induction false} WeaveAppend(a: seq<string>, b: seq<string>, after: string -> seq<string>)
    ensures Weave(a + b, after) == Weave(a, after) + Weave(b, after)
    decreases |b|
  {
    if b == [] {
      assert a + b == a;
    } else {
      var init := b[..|b| - 1];
      WeaveAppend(a, init, after);
      assert (a + b)[..|a + b| - 1] == a + init;
    }
  }

  lemma {:induction false} WeaveKeeps(md: seq<string>, after: string -> seq<string>)
    ensures Subseq(md, Weave(md, after))
  {
    if md != [] {
      var init, l := md[..|md| - 1], md[|md| - 1];
      WeaveKeeps(init, after);
      var extra := after(l);
      SubseqRefl([]);
      SubseqPrefix([], extra, []);
      assert extra + [] == extra;
      SubseqAppend([l], [l], [], extra);
      assert [l] + [] == [l];
      SubseqAppend(init, Weave(init, after), [l], [l] + extra);
      assert md == init + [l];
      assert Weave(md, after) == Weave(init, after) + ([l] + extra);
    }
  }

  /** Where line `i` lands. */
  function Pos(md: seq<string>, after: string -> seq<string>, i: int): int
    requires 0 <= i <= |md|
  {
    |Weave(md[..i], after)|
  }

  lemma WeaveAt(md: seq<string>, after: string -> seq<string>, i: int)
    requires 0 <= i < |md|
    ensures var r, p, e := Weave(md, after), Pos(md, after, i), after(md[i]);
      p + 1 + |e| <= |r| && r[p] == md[i] && r[p + 1..p + 1 + |e|] == e &&
      (i + 1 < |md| ==> Pos(md, after, i + 1) == p + 1 + |e|)
  {
    var a, b := md[..i + 1], md[i + 1..];
    assert md == a + b;
    WeaveAppend(a, b, after);
    assert a[..i] == md[..i];
    if i + 1 < |md| {
      assert md[..i + 1] == a;
    }
  }

  /** Lines that get nothing behind them leave the text as it is. */
  lemma {:induction false} WeaveNothing(md: seq<string>, after: string -> seq<string>)
    requires forall i :: 0 <= i < |md| ==> after(md[i]) == []
    ensures Weave(md, after) == md
  {
    if md != [] {
      var init := md[..|md| - 1];
      assert forall i :: 0 <= i < |init| ==> init[i] == md[i];
      WeaveNothing(init, after);
      assert md == init + [md[|md| - 1]];
    }
  }

  // ---------------------------------------------------------------------
  // What the pass promises
  // ---------------------------------------------------------------------

  /** Every input line is copied to the output, in order. */
  lemma CopiesEveryLine(md: seq<string>, calendar: map<string, seq<string>>)
    ensures Subseq(md, Spliced(md, calendar))
  {
    WeaveKeeps(md, AfterIn(calendar));
  }

  /** Line `i` sits at `Pos`, directly followed by what `After` puts
      behind it. */
  lemma SplicedAt(md: seq<string>, calendar: map<string, seq<string>>, i: int)
    requires 0 <= i < |md|
    ensures var r, p, e := Spliced(md, calendar), Pos(md, AfterIn(calendar), i), After(md[i], calendar);
      p + 1 + |e| <= |r| && r[p] == md[i] && r[p + 1..p + 1 + |e|] == e
  {
    WeaveAt(md, AfterIn(calendar), i);
  }

  /** A header whose key has an entry gets its tasks, in calendar order,
      each as `- [ ] task`, then one blank line; any other line gets
      nothing. */
  lemma AfterSpec(line: string, calendar: map<string, seq<string>>)
    ensures DayKey(line).None? || DayKey(line).value !in calendar ==> After(line, calendar) == []
    ensures DayKey(line).Some? && DayKey(line).value in calendar ==>
      var tasks, e := calendar[DayKey(line).value], After(line, calendar);
      |e| == |tasks| + 1 && e[|tasks|] == "" &&
      forall j :: 0 <= j < |tasks| ==> e[j] == Box + tasks[j]
  {
    if DayKey(line).Some? && DayKey(line).value in calendar {
      BoxedSpec(calendar[DayKey(line).value]);
    }
  }

  /** The number of lines added: a task line per task and a blank line for
      each header with an entry. */
  function Added(md: seq<string>, calendar: map<string, seq<string>>): nat {
    if md == [] then 0
    else
      var l := md[|md| - 1];
      Added(md[..|md| - 1], calendar) +
        match DayKey(l)
        case Some(k) => if k in calendar then |calendar[k]| + 1 else 0
        case None => 0
  }

  /** There is no deduplication: the output is longer by exactly the task
      and blank lines of the matched headers. */
  lemma {:induction false} SplicedLength(md: seq<string>, calendar: map<string, seq<string>>)
    ensures |Spliced(md, calendar)| == |md| + Added(md, calendar)
  {
    if md != [] {
      var l := md[|md| - 1];
      SplicedLength(md[..|md| - 1], calendar);
      if DayKey(l).Some? && DayKey(l).value in calendar {
        BoxedSpec(calendar[DayKey(l).value]);
      }
    }
  }

  /** Without a header whose key has an entry the note is unchanged. */
  lemma NoMatchUnchanged(md: seq<string>, calendar: map<string, seq<string>>)
    requires forall i :: 0 <= i < |md| ==> DayKey(md[i]).None? || DayKey(md[i]).value !in calendar
    ensures Spliced(md, calendar) == md
  {
    WeaveNothing(md, AfterIn(calendar));
  }

  // ---------------------------------------------------------------------
  // The file `main` writes
  // ---------------------------------------------------------------------

  /** `main`: the note's `splitlines()`, the tasks of the calendar file
      spliced in, written back as `"\n".join(novo_md)`. */
  function WeeklyNoteText(note: string, calendarText: string): string {
    Join(Spliced(SplitLines(note), ParseCalendar(calendarText)))
  }

  lemma {:induction false} BoxedOneLine(tasks: seq<string>)
    requires AllNoNewline(tasks)
    ensures AllNoNewline(Boxed(tasks))
  {
    BoxedSpec(tasks);
    forall i | 0 <= i < |tasks| ensures NoNewline(Boxed(tasks)[i]) {
      var x := Box + tasks[i];
      forall j | 0 <= j < |x| ensures x[j] != '\n' {
        if j >= |Box| { assert x[j] == tasks[i][j - |Box|]; }
      }
    }
  }

  /** Single lines spliced with single-line tasks stay single lines. */
  lemma {:induction false} SplicedOneLine(md: seq<string>, calendar: map<string, seq<string>>)
    requires AllNoNewline(md) && CalendarOneLine(calendar)
    ensures AllNoNewline(Spliced(md, calendar))
  {
    if md != [] {
      var init, l := md[..|md| - 1], md[|md| - 1];
      assert AllNoNewline(init) by {
        forall k | 0 <= k < |init| ensures NoNewline(init[k]) {
          assert init[k] == md[k];
        }
      }
      SplicedOneLine(init, calendar);
      var a := After(l, calendar);
      assert AllNoNewline(a) by {
        if DayKey(l).Some? && DayKey(l).value in calendar {
          BoxedOneLine(calendar[DayKey(l).value]);
          AllNoNewlineJoin(Boxed(calendar[DayKey(l).value]), [""]);
        }
      }
      AllNoNewlineJoin(Spliced(init, calendar), [l]);
      AllNoNewlineJoin(Spliced(init, calendar) + [l], a);
    }
  }

  /** Reading the written file back line by line gives the spliced lines,
      less a final blank one: the file is written without a final line
      break. */
  lemma WeeklyNoteReadsBack(note: string, calendarText: string)
    ensures var out := Spliced(SplitLines(note), ParseCalendar(calendarText));
      (out == [] ==> SplitLines(WeeklyNoteText(note, calendarText)) == []) &&
      (out != [] ==> SplitLines(WeeklyNoteText(note, calendarText)) == DropLastEmpty(out))
  {
    SplitLinesNoNewlines(note);
    CalendarIsOneLine(calendarText);
    SplicedOneLine(SplitLines(note), ParseCalendar(calendarText));
    SplitLinesJoinAny(Spliced(SplitLines(note), ParseCalendar(calendarText)));
  }

  /** A note ending in a line break is written back without it. */
  lemma WeeklyDropsFinalNewline()
    ensures WeeklyNoteText("- [ ] a\n", "") == "- [ ] a"
  {
    var ls := ["- [ ] a", ""];
    assert Join(ls) == "- [ ] a\n";
    assert AllNoNewline(ls);
    SplitLinesJoinAny(ls);
    assert SplitLines("- [ ] a\n") == ["- [ ] a"];
    NotHeader("- [ ] a");
    NoMatchUnchanged(["- [ ] a"], ParseCalendar(""));
  }
}
