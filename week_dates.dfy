/** The dates of the current week (`get_week_dates`, written identically in
    `modules/note_manager.py` and `core/note_generator.py`) and the day
    headers the note templates build from them. */
module WeekDates {
  import opened Text
  import opened Dict
  import opened Dates
  import opened DayNotes

  /** The weekday names in week order, the keys `%A` gives. */
  function Names(): (ns: seq<string>)
    ensures |ns| == 7 && forall i :: 0 <= i < 7 ==> ns[i] == WeekdayName(i)
  {
    seq(7, i requires 0 <= i < 7 => WeekdayName(i))
  }

  /** No two weekday names are equal (their first two letters differ). */
  lemma NamesDistinct()
    ensures Distinct(Names())
  {
    var abbrev := ["Mo", "Tu", "We", "Th", "Fr", "Sa", "Su"];
    forall i | 0 <= i < 7
      ensures |Names()[i]| >= 2 && Names()[i][..2] == abbrev[i]
    {
    }
  }

  /** Day 1 is a Monday, so a date is never earlier in the count than its
      weekday: the Monday of its week exists. */
  lemma WeekdayBound(d: Date)
    requires ValidDate(d)
    ensures DayNumber(d) > Weekday(d)
  {
    DayNumberPositive(d);
    MondayBefore(DayNumber(d), 0);
  }

  /** Counting back `(n + 6) % 7` days from day `n >= 1` stays at day 1 or
      later and lands on a day whose weekday is 0; `i` days later the
      weekday is `i`. */
  lemma MondayBefore(n: int, i: int)
    requires n >= 1 && 0 <= i < 7
    ensures n > (n + 6) % 7
    ensures (n - (n + 6) % 7 + i + 6) % 7 == i
  {
    var w, q := (n + 6) % 7, (n + 6) / 7;
    assert n + 6 == 7 * q + w;
    assert n - w + i + 6 == 7 * q + i;
  }

  /** `today - timedelta(days=today.weekday())` */
  function WeekStart(today: Date): (r: Date)
    requires ValidDate(today)
    ensures ValidDate(r) && DayNumber(r) + Weekday(today) == DayNumber(today)
  {
    WeekdayBound(today);
    SubDays(today, Weekday(today))
  }

  /** `start_of_week + timedelta(days=i)` */
  function WeekDay(today: Date, i: nat): (r: Date)
    requires ValidDate(today)
    ensures ValidDate(r) && DayNumber(r) == DayNumber(WeekStart(today)) + i
  {
    AddDays(WeekStart(today), i)
  }

  /** The pairs the loop assigns, `(day.strftime("%A"), day.strftime("%d/%m"))`
      for the first `n` days of the week. */
  function WeekPairs(today: Date, n: nat): (ps: seq<(string, string)>)
    requires ValidDate(today)
    ensures |ps| == n
    ensures forall i :: 0 <= i < n ==> ps[i] == DayPair(WeekDay(today, i))
  {
    seq(n, i requires 0 <= i < n => DayPair(WeekDay(today, i)))
  }

  function DayPair(day: Date): (string, string)
    requires ValidDate(day)
  {
    (WeekdayName(Weekday(day)), FormatDDMM(day))
  }

  /** The loop's step: one more day is one more pair. */
  lemma PairsSnoc(today: Date, i: nat)
    requires ValidDate(today)
    ensures WeekPairs(today, i + 1) == WeekPairs(today, i) + [DayPair(AddDays(WeekStart(today), i))]
  {
    var a, b := WeekPairs(today, i + 1), WeekPairs(today, i);
    assert a[..i] == b;
    assert a == a[..i] + [a[i]];
  }

  /** `get_week_dates(today)` */
  method GetWeekDates(today: Date) returns (weekDates: Dict<string>)
    requires ValidDate(today)
    ensures weekDates == FromPairs(WeekPairs(today, 7))
  {
    var start := WeekStart(today);
    weekDates := Empty();
    for i := 0 to 7
      invariant weekDates == FromPairs(WeekPairs(today, i))
    {
      var day := AddDays(start, i);
      var entry := DayPair(day);
      PairsSnoc(today, i);
      FromPairsSnoc(WeekPairs(today, i), entry);
      weekDates := Put(weekDates, entry.0, entry.1);
    }
  }

  /** The week starts on the Monday on or before today, and its `i`-th day
      is `i` days later and falls on weekday `i`. */
  lemma WeekDaySpec(today: Date, i: nat)
    requires ValidDate(today) && i < 7
    ensures Weekday(WeekStart(today)) == 0
    ensures DayNumber(WeekStart(today)) <= DayNumber(today) < DayNumber(WeekStart(today)) + 7
    ensures DayNumber(WeekDay(today, i)) == DayNumber(WeekStart(today)) + i
    ensures Weekday(WeekDay(today, i)) == i
  {
    DayNumberPositive(today);
    var n, s, e := DayNumber(today), DayNumber(WeekStart(today)), DayNumber(WeekDay(today, i));
    WeekdayOf(today, n);
    WeekArith(n, s, e, i);
    WeekdayOf(WeekStart(today), s);
    WeekdayOf(WeekDay(today, i), e);
  }

  /** The day-number arithmetic of `WeekDaySpec`: day `s = n - (n + 6) % 7`
      has weekday 0 and day `s + i` weekday `i`. */
  lemma WeekArith(n: int, s: int, e: int, i: int)
    requires n >= 1 && 0 <= i < 7 && s == n - (n + 6) % 7 && e == s + i
    ensures (s + 6) % 7 == 0 && s <= n < s + 7 && (e + 6) % 7 == i
  {
    MondayBefore(n, 0);
    MondayBefore(n, i);
  }

  /** The `i`-th pair the loop assigns is day `i`'s name and `DD/MM`. */
  lemma WeekPairsAt(today: Date, n: nat, i: nat)
    requires ValidDate(today) && i < n <= 7
    ensures WeekPairs(today, n)[i] == (Names()[i], FormatDDMM(WeekDay(today, i)))
  {
    WeekDaySpec(today, i);
  }

  /** Assigning pairs keyed by distinct names in order gives a table whose
      keys are those names, each mapped to its pair's value. */
  lemma {:induction false} NamedTable(ps: seq<(string, string)>, ns: seq<string>)
    requires Distinct(ns) && |ps| <= |ns|
    requires forall i :: 0 <= i < |ps| ==> ps[i].0 == ns[i]
    ensures FromPairs(ps).keys == ns[..|ps|]
    ensures forall i :: 0 <= i < |ps| ==> FromPairs(ps).vals[ns[i]] == ps[i].1
  {
    if ps != [] {
      var n := |ps|;
      var init, last := ps[..n - 1], ps[n - 1];
      NamedTable(init, ns);
      var prev := FromPairs(init);
      assert last.0 == ns[n - 1];
      assert ps == init + [last];
      FromPairsSnoc(init, last);
      NamedStep(prev, ns, n - 1, last.1);
      forall i | 0 <= i < n - 1
        ensures FromPairs(ps).vals[ns[i]] == ps[i].1
      {
        assert init[i] == ps[i];
        assert prev.vals[ns[i]] == init[i].1;
      }
    }
  }

  /** Assigning the next name of `ns` to a table keyed by the names before
      it appends the name and changes no earlier name's value. */
  lemma NamedStep(prev: Dict<string>, ns: seq<string>, n: int, v: string)
    requires Valid(prev) && Distinct(ns) && 0 <= n < |ns| && prev.keys == ns[..n]
    ensures Put(prev, ns[n], v).keys == ns[..n + 1]
    ensures Put(prev, ns[n], v).vals[ns[n]] == v
    ensures forall i :: 0 <= i < n ==> Put(prev, ns[n], v).vals[ns[i]] == prev.vals[ns[i]]
  {
    assert ns[n] !in ns[..n];
    assert ns[..n] + [ns[n]] == ns[..n + 1];
    forall i | 0 <= i < n ensures ns[i] != ns[n] && ns[i] in prev.vals {
      assert ns[i] == prev.keys[i];
    }
  }

  /** A table built from pairs `(ns[i], vs[i])` with distinct names has the
      names as keys, in order, and maps each to its value. */
  lemma NamedValues(ps: seq<(string, string)>, ns: seq<string>, vs: seq<string>)
    requires Distinct(ns) && |ps| == |ns| == |vs|
    requires forall i :: 0 <= i < |ps| ==> ps[i] == (ns[i], vs[i])
    ensures FromPairs(ps).keys == ns
    ensures forall i :: 0 <= i < |ns| ==> FromPairs(ps).vals[ns[i]] == vs[i]
  {
    NamedTable(ps, ns);
    assert ns[..|ps|] == ns;
  }

  /** The `DD/MM` of the seven days of the week. */
  function WeekDDMMs(today: Date): (vs: seq<string>)
    requires ValidDate(today)
    ensures |vs| == 7 && forall i :: 0 <= i < 7 ==> vs[i] == FormatDDMM(WeekDay(today, i))
  {
    seq(7, i requires 0 <= i < 7 => FormatDDMM(WeekDay(today, i)))
  }

  /** `get_week_dates(today)` maps Monday..Sunday, in that order, to seven
      consecutive dates from the Monday on or before today. */
  lemma WeekDatesSpec(today: Date)
    requires ValidDate(today)
    ensures var d := FromPairs(WeekPairs(today, 7));
      d.keys == Names() && forall i :: 0 <= i < 7 ==> d.vals[Names()[i]] == FormatDDMM(WeekDay(today, i))
  {
    var ps, vs := WeekPairs(today, 7), WeekDDMMs(today);
    forall i | 0 <= i < 7
      ensures ps[i] == (Names()[i], vs[i])
    {
      WeekPairsAt(today, 7, i);
    }
    NamesDistinct();
    NamedValues(ps, Names(), vs);
  }

  /** `f"### {name} ({date})"` */
  function DayLine(name: string, date: string): string {
    "### " + name + " (" + date + ")"
  }

  /** The header the template writes for day `i` of the week. */
  function HeaderOf(today: Date, i: nat): string
    requires ValidDate(today) && i < 7
  {
    DayLine(Names()[i], FormatDDMM(WeekDay(today, i)))
  }

  /** A day header is one line starting `### `. */
  lemma DayLineShape(i: nat, date: string)
    requires i < 7 && NoNewline(date)
    ensures NoNewline(DayLine(Names()[i], date)) && IsHeading(DayLine(Names()[i], date))
  {
    var w := Names()[i];
    forall k | 0 <= k < |w| ensures w[k] != '\n' {
      assert w[k] in "MondayTuesWhrFiSt";
    }
    NoNewlineConcat("### ", w);
    NoNewlineConcat("### " + w, " (");
    NoNewlineConcat("### " + w + " (", date);
    NoNewlineConcat("### " + w + " (" + date, ")");
  }

  lemma HeaderShape(today: Date, i: nat)
    requires ValidDate(today) && i < 7
    ensures NoNewline(HeaderOf(today, i)) && IsHeading(HeaderOf(today, i))
  {
    var date := FormatDDMM(WeekDay(today, i));
    assert NoNewline(date);
    DayLineShape(i, date);
  }

  /** The seven day headers of the current week, Monday first. */
  function WeekHeaders(today: Date): (hs: seq<string>)
    requires ValidDate(today)
    ensures |hs| == 7
    ensures forall i :: 0 <= i < 7 ==> hs[i] == HeaderOf(today, i)
    ensures forall i :: 0 <= i < 7 ==> NoNewline(hs[i]) && IsHeading(hs[i])
  {
    forall i | 0 <= i < 7 ensures NoNewline(HeaderOf(today, i)) && IsHeading(HeaderOf(today, i)) {
      HeaderShape(today, i);
    }
    seq(7, i requires 0 <= i < 7 => HeaderOf(today, i))
  }

  /** A day header is read back by the day-section parser as its own
      weekday and date. */
  lemma DayLineReadsBack(i: nat, d: Date)
    requires ValidDate(d) && i < 7
    ensures ExtractDayDate(DayLine(Names()[i], FormatDDMM(d))) == Some((Names()[i], FormatDDMM(d)))
  {
    var w, dt := Names()[i], FormatDDMM(d);
    assert IsWord(w);
    assert DDMMAt(dt, 0);
    ExtractDayDateOf(w, dt, "");
    assert DayLine(w, dt) + "" == DayLine(w, dt);
  }

  /** Each header of the week reads back as its weekday and date. */
  lemma HeaderReadsBack(today: Date, i: nat)
    requires ValidDate(today) && i < 7
    ensures ExtractDayDate(HeaderOf(today, i)) == Some((Names()[i], FormatDDMM(WeekDay(today, i))))
  {
    DayLineReadsBack(i, WeekDay(today, i));
  }

  /** The first line of both note templates,
      `f"# This Week in {month_name} (Week {week_number}, {today.year})"`. */
  function TitleLine(month: string, week: int, year: int): string {
    "# This Week in " + month + " (Week " + IntToString(week) + ", " + IntToString(year) + ")"
  }

  lemma NoNewlineConcat(a: string, b: string)
    requires NoNewline(a) && NoNewline(b)
    ensures NoNewline(a + b)
  {
    forall i | 0 <= i < |a + b| ensures (a + b)[i] != '\n' {
      if i >= |a| { assert (a + b)[i] == b[i - |a|]; }
    }
  }

  lemma MonthNameOneLine(m: int)
    requires 1 <= m <= 12
    ensures NoNewline(MonthName(m)) && |MonthName(m)| >= 3
  {
    var s := MonthName(m);
    forall i | 0 <= i < |s| ensures s[i] != '\n' {
      assert s[i] in "JanuryFebMchApilMyJueJulyAugstSeptmOcoNvD";
    }
  }

  /** The title is a single line. */
  lemma TitleOneLine(m: int, week: int, year: int)
    requires 1 <= m <= 12
    ensures NoNewline(TitleLine(MonthName(m), week, year))
  {
    MonthNameOneLine(m);
    var w, y := IntToString(week), IntToString(year);
    assert NoNewline(w) && NoNewline(y);
    NoNewlineConcat("# This Week in ", MonthName(m));
    NoNewlineConcat("# This Week in " + MonthName(m), " (Week ");
    NoNewlineConcat("# This Week in " + MonthName(m) + " (Week ", w);
    NoNewlineConcat("# This Week in " + MonthName(m) + " (Week " + w, ", ");
    NoNewlineConcat("# This Week in " + MonthName(m) + " (Week " + w + ", ", y);
    NoNewlineConcat("# This Week in " + MonthName(m) + " (Week " + w + ", " + y, ")");
  }

  /** The file name both generators give a weekly note,
      `f"{ordinal_week}-week-{month_name.lower()}-{year}.md"`. */
  function NoteFilename(ordinal: string, month: string, year: int): string {
    ordinal + "-week-" + Lower(month) + "-" + IntToString(year) + ".md"
  }

  /** `Path.match("*-week-*.md")`: the pattern the note finders glob for. */
  predicate WeekGlob(name: string) {
    exists i {:trigger name[i..i + 6]} :: 0 <= i && i + 9 <= |name| && name[i..i + 6] == "-week-" && name[|name| - 3..] == ".md"
  }

  /** Every generated file name is found by the weekly-note glob, with the
      ordinal as its first part. */
  lemma FilenameFound(ordinal: string, month: string, year: int)
    ensures WeekGlob(NoteFilename(ordinal, month, year))
    ensures StartsWith(NoteFilename(ordinal, month, year), ordinal + "-week-")
  {
    var name := NoteFilename(ordinal, month, year);
    var i := |ordinal|;
    assert name[i..i + 6] == "-week-";
    assert name[|name| - 3..] == ".md";
  }
}
