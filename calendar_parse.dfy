/** The calendar file of the older pipeline (`parse_google_calendar`, the
    same loop in `core/daily_note_parser.py` and
    `core/organize_google_calendar_weekly_tasks.py`).

    A line `### Word (DD/MM)...` opens the day `Word (DD/MM)`; the non-blank
    lines below it, stripped, are that day's tasks. */
module CalendarParse {
  import opened Text
  import opened Dict
  import opened DayNotes

  /** `re.match(r"^### (\w+) \((\d{2}/\d{2})\)", line)` and the key
      `f"{weekday} ({date})"` it gives. */
  function DayKey(line: string): Option<string> {
    match ExtractDayDate(line)
    case Some((w, dt)) => Some(w + " (" + dt + ")")
    case None => None
  }

  /** No line of `ls` opens a day. */
  predicate NoHeader(ls: seq<string>) {
    forall i :: 0 <= i < |ls| ==> DayKey(ls[i]).None?
  }

  /** A day key never starts like a task line or is blank: a line that
      starts with `-`, or is empty, opens no day. */
  lemma NotHeader(line: string)
    requires line == [] || line[0] == '-'
    ensures DayKey(line).None?
  {
    if line != [] {
      StartsWithHead(line, "### ");
    }
  }

  /** The calendar read so far and the day being filled. */
  datatype CalendarScan = CalendarScan(cal: map<string, seq<string>>, current: Option<string>)

  /** The day being filled, if any, has an entry. */
  predicate Filling(st: CalendarScan) {
    st.current.Some? ==> st.current.value in st.cal
  }

  /** One turn of the loop over the calendar's lines. */
  function ParseStep(st: CalendarScan, line: string): (r: CalendarScan)
    requires Filling(st)
    ensures Filling(r)
  {
    match DayKey(line)
    case Some(k) => CalendarScan(st.cal[k := []], Some(k))
    case None =>
      if st.current.Some? && Strip(line) != "" then
        var k := st.current.value;
        CalendarScan(st.cal[k := st.cal[k] + [Strip(line)]], st.current)
      else st
  }

  /** The state after the loop has seen `lines`. */
  function ParseLines(lines: seq<string>): (r: CalendarScan)
    ensures Filling(r)
  {
    if lines == [] then CalendarScan(map[], None)
    else ParseStep(ParseLines(lines[..|lines| - 1]), lines[|lines| - 1])
  }

  /** `parse_google_calendar` on the file's text. */
  function ParseCalendar(content: string): map<string, seq<string>> {
    ParseLines(SplitLines(content)).cal
  }

  method ParseGoogleCalendar(content: string) returns (cal: map<string, seq<string>>)
    ensures cal == ParseCalendar(content)
  {
    var lines := SplitLines(content);
    cal := ParseCalendarLines(lines);
  }

  /** `for line in lines: ...` */
  method ParseCalendarLines(lines: seq<string>) returns (cal: map<string, seq<string>>)
    ensures cal == ParseLines(lines).cal
  {
    cal := map[];
    var current: Option<string> := None;
    for i := 0 to |lines|
      invariant CalendarScan(cal, current) == ParseLines(lines[..i])
    {
      assert lines[..i + 1][..i] == lines[..i];
      var line := lines[i];
      var key := DayKey(line);
      if key.Some? {
        current := key;
        cal := cal[key.value := []];
      } else if current.Some? && Strip(line) != "" {
        cal := cal[current.value := cal[current.value] + [Strip(line)]];
      }
    }
    assert lines[..|lines|] == lines;
  }

  // ---------------------------------------------------------------------
  // What the parse promises
  // ---------------------------------------------------------------------

  /** The non-blank lines of `body`, stripped, in order. */
  function Tasks(body: seq<string>): (r: seq<string>)
    ensures |r| <= |body|
  {
    if body == [] then []
    else
      var l := body[|body| - 1];
      Tasks(body[..|body| - 1]) + (if Strip(l) != "" then [Strip(l)] else [])
  }

  /** Lines before the first day header are ignored. */
  lemma {:induction false} ParseBeforeHeader(pre: seq<string>)
    requires NoHeader(pre)
    ensures ParseLines(pre) == CalendarScan(map[], None)
  {
    if pre != [] {
      ParseBeforeHeader(pre[..|pre| - 1]);
    }
  }

  /** A day header opens its key afresh, dropping any earlier list under it,
      and the lines below it up to the next header become its tasks; no
      other key changes. */
  lemma {:induction false} ParseSection(pre: seq<string>, h: string, body: seq<string>)
    requires DayKey(h).Some? && NoHeader(body)
    ensures ParseLines(pre + [h] + body) ==
      CalendarScan(ParseLines(pre).cal[DayKey(h).value := Tasks(body)], DayKey(h))
    decreases |body|
  {
    var k := DayKey(h).value;
    if body == [] {
      assert pre + [h] + body == pre + [h];
      assert (pre + [h])[..|pre|] == pre;
    } else {
      var init := body[..|body| - 1];
      ParseSection(pre, h, init);
      assert (pre + [h] + body)[..|pre + [h] + body| - 1] == pre + [h] + init;
      var m, l := ParseLines(pre).cal, body[|body| - 1];
      assert DayKey(l).None?;
      assert ParseLines(pre + [h] + body) == ParseStep(CalendarScan(m[k := Tasks(init)], Some(k)), l);
      assert Tasks(body) == Tasks(init) + (if Strip(l) != "" then [Strip(l)] else []);
      var st := CalendarScan(m[k := Tasks(init)], Some(k));
      if Strip(l) != "" {
        assert ParseStep(st, l) == CalendarScan(st.cal[k := st.cal[k] + [Strip(l)]], Some(k));
        assert m[k := Tasks(init)][k := Tasks(init) + [Strip(l)]] == m[k := Tasks(body)];
      } else {
        assert ParseStep(st, l) == st;
        assert Tasks(body) == Tasks(init);
      }
    }
  }

  /** The calendar has exactly the keys of the day headers among `lines`. */
  lemma {:induction false} ParseKeys(lines: seq<string>, k: string)
    ensures k in ParseLines(lines).cal <==> exists i :: 0 <= i < |lines| && DayKey(lines[i]) == Some(k)
  {
    if lines != [] {
      var init := lines[..|lines| - 1];
      ParseKeys(init, k);
      assert forall i :: 0 <= i < |init| ==> init[i] == lines[i];
    }
  }

  /** Every day's tasks are single lines. */
  predicate CalendarOneLine(calendar: map<string, seq<string>>) {
    forall k :: k in calendar ==> AllNoNewline(calendar[k])
  }

  /** Tasks read from single lines are single lines. */
  lemma {:induction false} ParseLinesOneLine(lines: seq<string>)
    requires AllNoNewline(lines)
    ensures CalendarOneLine(ParseLines(lines).cal)
  {
    if lines != [] {
      var init, l := lines[..|lines| - 1], lines[|lines| - 1];
      assert AllNoNewline(init) by {
        forall k | 0 <= k < |init| ensures NoNewline(init[k]) {
          assert init[k] == lines[k];
        }
      }
      ParseLinesOneLine(init);
      StripNoNewline(l);
      AllNoNewlineJoin([], [Strip(l)]);
      forall k | k in ParseLines(init).cal ensures AllNoNewline(ParseLines(init).cal[k] + [Strip(l)]) {
        AllNoNewlineJoin(ParseLines(init).cal[k], [Strip(l)]);
      }
    }
  }

  /** Every task `parse_google_calendar` reads is a single line. */
  lemma CalendarIsOneLine(content: string)
    ensures CalendarOneLine(ParseCalendar(content))
  {
    SplitLinesNoNewlines(content);
    ParseLinesOneLine(SplitLines(content));
  }
}
