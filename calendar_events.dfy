/** Calendar events as tasks of the current pipeline
    (`add_calendar_events_to_day` and `update_daily_tasks` of
    `modules/task_processor.py`).

    An event's start and end come already written as `HH:MM`. A day's body
    receives a line `- [ ] summary | HH:MM - HH:MM` for every event whose
    text is not yet the text of one of its checkbox lines. */
module CalendarEvents {
  import opened Text
  import opened Dict
  import opened DayNotes
  import opened NoteRender

  /** A calendar event: its summary and its start and end times. */
  datatype Event = Event(summary: string, start: string, end: string)

  /** `f"{summary} | {start_time} - {end_time}"` */
  function EventText(e: Event): string {
    e.summary + " | " + e.start + " - " + e.end
  }

  /** The prefix of a new, unchecked task line. */
  const Box := "- [ ] "

  /** `line.strip().startswith("- [")`: a checkbox line, whatever its state. */
  predicate IsCheckbox(line: string) {
    StartsWith(Strip(line), "- [")
  }

  /** `line.split("] ", 1)[-1].strip()`: the text after the checkbox. */
  function CheckedText(line: string): string {
    Strip(AfterFirst(line, "] "))
  }

  /** `existing_events`: the texts of the checkbox lines, in order. */
  function Existing(lines: seq<string>): seq<string> {
    if lines == [] then []
    else
      var l := lines[|lines| - 1];
      Existing(lines[..|lines| - 1]) + (if IsCheckbox(l) then [CheckedText(l)] else [])
  }

  /** The lines appended for `events`, given the texts already present;
      `existing` is not extended as events are added. */
  function NewLines(existing: seq<string>, events: seq<Event>): seq<string> {
    if events == [] then []
    else
      var t := EventText(events[|events| - 1]);
      NewLines(existing, events[..|events| - 1]) + (if t in existing then [] else [Box + t])
  }

  /** The lines of the day after the events are added. */
  function AddedLines(body: string, events: seq<Event>): seq<string> {
    var lines := SplitLines(body);
    lines + NewLines(Existing(lines), events)
  }

  /** `add_calendar_events_to_day(day_content, events)` */
  function AddedToDay(body: string, events: seq<Event>): string {
    Join(AddedLines(body, events))
  }

  // ---------------------------------------------------------------------
  // The loops
  // ---------------------------------------------------------------------

  /** The loop collecting `existing_events`. */
  method CollectExisting(lines: seq<string>) returns (existing: seq<string>)
    ensures existing == Existing(lines)
  {
    existing := [];
    for i := 0 to |lines|
      invariant existing == Existing(lines[..i])
    {
      assert lines[..i + 1][..i] == lines[..i];
      var l := lines[i];
      if StartsWith(Strip(l), "- [") {
        existing := existing + [Strip(AfterFirst(l, "] "))];
      }
    }
    assert lines[..|lines|] == lines;
  }

  /** The loop over `events` appending to `lines`. */
  method AppendEvents(lines: seq<string>, existing: seq<string>, events: seq<Event>) returns (out: seq<string>)
    ensures out == lines + NewLines(existing, events)
  {
    out := lines;
    for i := 0 to |events|
      invariant out == lines + NewLines(existing, events[..i])
    {
      assert events[..i + 1][..i] == events[..i];
      var t := events[i].summary + " | " + events[i].start + " - " + events[i].end;
      if t !in existing {
        out := out + [Box + t];
      }
    }
    assert events[..|events|] == events;
  }

  method AddCalendarEventsToDay(body: string, events: seq<Event>) returns (out: string)
    ensures out == AddedToDay(body, events)
  {
    var lines := SplitLines(body);
    var existing := CollectExisting(lines);
    var added := AppendEvents(lines, existing, events);
    out := Join(added);
  }

  // ---------------------------------------------------------------------
  // What adding events promises
  // ---------------------------------------------------------------------

  /** A text is existing exactly when some checkbox line carries it. */
  lemma {:induction false} ExistingSpec(lines: seq<string>, t: string)
    ensures t in Existing(lines) <==> exists i :: 0 <= i < |lines| && IsCheckbox(lines[i]) && CheckedText(lines[i]) == t
  {
    if lines != [] {
      var init := lines[..|lines| - 1];
      ExistingSpec(init, t);
      assert forall i :: 0 <= i < |init| ==> init[i] == lines[i];
    }
  }

  /** A line is appended exactly for an event whose text is not existing,
      and there are never more new lines than events. */
  lemma {:induction false} NewLinesSpec(existing: seq<string>, events: seq<Event>)
    ensures |NewLines(existing, events)| <= |events|
    ensures forall x :: x in NewLines(existing, events) <==>
      exists e :: e in events && EventText(e) !in existing && x == Box + EventText(e)
  {
    if events != [] {
      var init := events[..|events| - 1];
      NewLinesSpec(existing, init);
      assert events == init + [events[|events| - 1]];
    }
  }

  /** No event whose text is already present adds a line, and when every
      event's text is present nothing is added. */
  lemma AllExistingAddsNothing(existing: seq<string>, events: seq<Event>)
    requires forall e :: e in events ==> EventText(e) in existing
    ensures NewLines(existing, events) == []
  {
    NewLinesSpec(existing, events);
  }

  /** `existing_events` is not extended while events are added, so an event
      listed twice in one call is added twice. */
  lemma RepeatedEventAddedTwice(existing: seq<string>, e: Event)
    requires EventText(e) !in existing
    ensures NewLines(existing, [e, e]) == [Box + EventText(e), Box + EventText(e)]
  {
    var t := EventText(e);
    assert [e, e][..1] == [e];
    assert [e][..0] == [];
    assert NewLines(existing, []) == [];
    assert NewLines(existing, [e]) == [] + [Box + t];
    assert NewLines(existing, [e, e]) == NewLines(existing, [e]) + [Box + t];
  }

  lemma {:induction false} JoinPrefix(a: seq<string>, b: seq<string>)
    ensures IsPrefix(Join(a), Join(a + b))
    decreases |b|
  {
    if b == [] {
      assert a + b == a;
    } else {
      var b0, x := b[..|b| - 1], b[|b| - 1];
      JoinPrefix(a, b0);
      assert a + b == (a + b0) + [x];
      JoinWithSnoc(a + b0, x, "\n");
      if a + b0 != [] {
        var j0, j := Join(a + b0), Join(a + b);
        assert j == j0 + "\n" + x;
        assert j[..|j0|] == j0;
        assert j[..|Join(a)|] == j0[..|Join(a)|];
      }
    }
  }

  /** Adding events only appends: the day's lines, joined, begin the result,
      and they are followed by exactly the new lines. */
  lemma AddOnlyAppends(body: string, events: seq<Event>)
    ensures IsPrefix(Join(SplitLines(body)), AddedToDay(body, events))
    ensures AddedLines(body, events)[..|SplitLines(body)|] == SplitLines(body)
  {
    JoinPrefix(SplitLines(body), NewLines(Existing(SplitLines(body)), events));
  }

  lemma {:induction false} ExistingAppend(a: seq<string>, b: seq<string>)
    ensures Existing(a + b) == Existing(a) + Existing(b)
    decreases |b|
  {
    if b == [] {
      assert a + b == a;
    } else {
      var b0 := b[..|b| - 1];
      ExistingAppend(a, b0);
      assert (a + b)[..|a + b| - 1] == a + b0;
    }
  }

  /** A new line is a checkbox line whose text is the event's text. */
  lemma BoxLine(t: string)
    requires Strip(t) == t
    ensures IsCheckbox(Box + t) && CheckedText(Box + t) == t
  {
    BoxIsCheckbox(t);
    BoxSplit(t);
    assert (Box + t)[6..] == t;
  }

  /** `Box + t` starts, once stripped, with `- [`. */
  lemma BoxIsCheckbox(t: string)
    ensures IsCheckbox(Box + t)
  {
    var l := Box + t;
    assert Strip(l) == RStrip(l);
    RStripStartsWith(l, "- [");
    assert l[..3] == "- [";
  }

  /** The first `] ` of `Box + t` is the box's own. */
  lemma BoxSplit(t: string)
    ensures Find(Box + t, "] ") == 4
  {
    var l := Box + t;
    assert OccursAt(l, "] ", 4);
    forall i | 0 <= i < 4 ensures !OccursAt(l, "] ", i) {
      assert l[i] != ']';
    }
  }

  lemma NewLinesNoNewline(existing: seq<string>, events: seq<Event>)
    requires forall e :: e in events ==> NoNewline(EventText(e))
    ensures AllNoNewline(NewLines(existing, events))
  {
    NewLinesSpec(existing, events);
    forall k | 0 <= k < |NewLines(existing, events)|
      ensures NoNewline(NewLines(existing, events)[k])
    {
      var x := NewLines(existing, events)[k];
      assert x in NewLines(existing, events);
      var e :| e in events && EventText(e) !in existing && x == Box + EventText(e);
      assert forall i :: 6 <= i < |x| ==> x[i] == EventText(e)[i - 6];
    }
  }

  /** After the events are added, each event's text is the text of some
      checkbox line. */
  lemma {:induction false} EventsPresent(existing: seq<string>, events: seq<Event>)
    requires forall e :: e in events ==> Strip(EventText(e)) == EventText(e)
    ensures forall e :: e in events ==> EventText(e) in existing || EventText(e) in Existing(NewLines(existing, events))
  {
    NewLinesSpec(existing, events);
    var nl := NewLines(existing, events);
    forall e | e in events && EventText(e) !in existing
      ensures EventText(e) in Existing(nl)
    {
      var t := EventText(e);
      assert Box + t in nl;
      var i :| 0 <= i < |nl| && nl[i] == Box + t;
      BoxLine(t);
      ExistingSpec(nl, t);
    }
  }

  /** A blank last line carries no text. */
  lemma ExistingDropLastEmpty(ls: seq<string>)
    requires |ls| >= 1
    ensures Existing(DropLastEmpty(ls)) == Existing(ls)
  {
    if ls[|ls| - 1] == "" {
      assert Strip("") == "";
      assert !IsCheckbox("");
    }
  }

  /** A second call with the same events adds nothing, provided each event
      text is one line without surrounding whitespace. */
  lemma SecondCallAddsNothing(body: string, events: seq<Event>)
    requires forall e :: e in events ==> NoNewline(EventText(e)) && Strip(EventText(e)) == EventText(e)
    ensures NewLines(Existing(SplitLines(AddedToDay(body, events))), events) == []
    ensures AddedLines(AddedToDay(body, events), events) == SplitLines(AddedToDay(body, events))
  {
    var ex2 := Existing(SplitLines(AddedToDay(body, events)));
    SecondCallExisting(body, events);
    AllExistingAddsNothing(ex2, events);
    assert SplitLines(AddedToDay(body, events)) + [] == SplitLines(AddedToDay(body, events));
  }

  /** After a call, the checkbox texts of the day hold every event's text. */
  lemma SecondCallExisting(body: string, events: seq<Event>)
    requires forall e :: e in events ==> NoNewline(EventText(e)) && Strip(EventText(e)) == EventText(e)
    ensures forall e :: e in events ==> EventText(e) in Existing(SplitLines(AddedToDay(body, events)))
  {
    var lines := SplitLines(body);
    var ex := Existing(lines);
    var nl := NewLines(ex, events);
    var ls := lines + nl;
    var ex2 := Existing(SplitLines(Join(ls)));
    EventsPresent(ex, events);
    if ls != [] {
      SplitLinesNoNewlines(body);
      NewLinesNoNewline(ex, events);
      AllNoNewlineJoin(lines, nl);
      SplitLinesJoinAny(ls);
      ExistingDropLastEmpty(ls);
      ExistingAppend(lines, nl);
      assert ex2 == ex + Existing(nl);
    }
  }


  // ---------------------------------------------------------------------
  // The section loop of `update_daily_tasks`
  // ---------------------------------------------------------------------

  /** The section's header names a weekday that has events. */
  predicate HasEvents(header: string, calendar: map<string, seq<Event>>) {
    ExtractDayDate(header).Some? && ExtractDayDate(header).value.0 in calendar
  }

  function EventsOf(header: string, calendar: map<string, seq<Event>>): seq<Event>
    requires HasEvents(header, calendar)
  {
    calendar[ExtractDayDate(header).value.0]
  }

  /** The new body of every section with events. */
  function DailyBodies(d: Dict<string>, calendar: map<string, seq<Event>>): map<string, string>
    requires Valid(d)
  {
    map k | k in d.keys && HasEvents(k, calendar) :: AddedToDay(d.vals[k], EventsOf(k, calendar))
  }

  /** The sections after the loop. */
  function DailySections(d: Dict<string>, calendar: map<string, seq<Event>>): Dict<string>
    requires Valid(d)
  {
    Sweep(d, {}, DailyBodies(d, calendar))
  }

  /** The note `update_daily_tasks` writes back: bodies are not stripped. */
  function DailyNote(content: string, calendar: map<string, seq<Event>>): string {
    var lines := Split(content);
    var d := FromPairs(Matches(lines, |lines|));
    DailySpec(d, calendar);
    RenderNote(Preamble(lines), DailySections(d, calendar), false)
  }

  /** `for day_header, day_content in day_sections.items(): ...` */
  method AddEventsToSections(sections: Dict<string>, calendar: map<string, seq<Event>>) returns (r: Dict<string>)
    requires Valid(sections)
    ensures r == DailySections(sections, calendar)
  {
    ghost var upd := DailyBodies(sections, calendar);
    SweepStart(sections, {}, upd);
    r := sections;
    var items := sections.keys;
    for i := 0 to |items|
      invariant r == SweepPartial(sections, {}, upd, i)
    {
      SweepTurn(sections, {}, upd, i);
      var k := items[i];
      var wd := ExtractDayDate(k);
      if wd.Some? && wd.value.0 in calendar {
        var updated := AddCalendarEventsToDay(sections.vals[k], calendar[wd.value.0]);
        r := Put(r, k, updated);
      }
    }
  }

  /** `update_daily_tasks` on the note's text. */
  method UpdateDailyTasks(content: string, calendar: map<string, seq<Event>>) returns (out: string)
    ensures out == DailyNote(content, calendar)
  {
    var header, sections := ParseDaySections(content);
    var updated := AddEventsToSections(sections, calendar);
    DailySpec(sections, calendar);
    out := Rebuild(header, updated, false);
  }

  /** The loop keeps every section in its place; a section whose weekday
      has events gets them added to its body, every other is unchanged. */
  lemma DailySpec(d: Dict<string>, calendar: map<string, seq<Event>>)
    requires Valid(d)
    ensures Valid(DailySections(d, calendar))
    ensures DailySections(d, calendar).keys == d.keys
    ensures forall k :: k in d.keys ==>
      DailySections(d, calendar).vals[k] ==
        if HasEvents(k, calendar) then AddedToDay(d.vals[k], EventsOf(k, calendar)) else d.vals[k]
  {
    SweepSpec(d, {}, DailyBodies(d, calendar));
    KeptNone(d.keys);
  }
}
