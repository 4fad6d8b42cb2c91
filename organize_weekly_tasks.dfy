/** Pending and future tasks into the weekly note (`core/organize_weekly_tasks.py`).

    Pending tasks are the `- [ ]` lines of one file; they go right after the
    weekly note's line `- [ ] Organizar tarefas semanais`. Future tasks are
    read from `### Word (DD/MM)` blocks of another file, keyed by `DD/MM`;
    each goes under the first day header of the note with that date, and
    those whose date has no header are appended at the end of the note. */
module WeeklyTasks {
  import opened Text
  import opened Dict
  import opened DayNotes

  // ---------------------------------------------------------------------
  // Pending tasks (`parse_tarefas_pendentes`)
  // ---------------------------------------------------------------------

  /** The lines that start with `- [ ]`, as they are, in order. */
  function PendingLines(lines: seq<string>): seq<string> {
    if lines == [] then []
    else
      var l := lines[|lines| - 1];
      PendingLines(lines[..|lines| - 1]) + (if StartsWith(l, "- [ ]") then [l] else [])
  }

  /** `parse_tarefas_pendentes` on the file's text. */
  function ParsePending(content: string): seq<string> {
    PendingLines(SplitLines(content))
  }

  /** Exactly the lines that start with `- [ ]` are kept, in their order. */
  lemma {:induction false} PendingSpec(lines: seq<string>)
    ensures Subseq(PendingLines(lines), lines)
    ensures forall t :: t in PendingLines(lines) ==> StartsWith(t, "- [ ]")
    ensures forall i :: 0 <= i < |lines| && StartsWith(lines[i], "- [ ]") ==> lines[i] in PendingLines(lines)
  {
    if lines != [] {
      var init, l := lines[..|lines| - 1], lines[|lines| - 1];
      PendingSpec(init);
      var e := if StartsWith(l, "- [ ]") then [l] else [];
      if e == [l] {
        SubseqRefl([l]);
      }
      SubseqAppend(PendingLines(init), init, e, [l]);
      assert lines == init + [l];
      assert forall i :: 0 <= i < |init| ==> init[i] == lines[i];
    }
  }

  // ---------------------------------------------------------------------
  // Future tasks (`parse_tarefas_futuras`)
  // ---------------------------------------------------------------------

  /** A date's entry: the header `Word (DD/MM)` and its task lines. */
  datatype FutureTask = FutureTask(header: string, tasks: seq<string>)

  /** `re.split(r"^### ", content, flags=re.MULTILINE)[1:]`, block by block
      as lines: a line starting `### ` opens a block whose first line is the
      rest of it; the lines up to the next such line follow; lines before
      the first one belong to no block. */
  function Blocks(lines: seq<string>): seq<seq<string>> {
    if lines == [] then []
    else
      var bs, l := Blocks(lines[..|lines| - 1]), lines[|lines| - 1];
      if StartsWith(l, "### ") then bs + [[l[4..]]]
      else if bs == [] then []
      else bs[..|bs| - 1] + [bs[|bs| - 1] + [l]]
  }

  /** No line opens a block. */
  predicate NoBlockStart(ls: seq<string>) {
    forall i :: 0 <= i < |ls| ==> !StartsWith(ls[i], "### ")
  }

  /** Lines before the first `### ` line make no block. */
  lemma {:induction false} BlocksBeforeFirst(pre: seq<string>)
    requires NoBlockStart(pre)
    ensures Blocks(pre) == []
  {
    if pre != [] {
      BlocksBeforeFirst(pre[..|pre| - 1]);
    }
  }

  /** A `### ` line and the lines after it up to the next one are one block,
      the last so far. */
  lemma {:induction false} BlocksSection(pre: seq<string>, h: string, body: seq<string>)
    requires StartsWith(h, "### ") && NoBlockStart(body)
    ensures Blocks(pre + [h] + body) == Blocks(pre) + [[h[4..]] + body]
    decreases |body|
  {
    if body == [] {
      assert pre + [h] + body == pre + [h];
      BlocksOpen(pre, h);
      assert [h[4..]] + body == [h[4..]];
    } else {
      var init, l := body[..|body| - 1], body[|body| - 1];
      BlocksSection(pre, h, init);
      var s := pre + [h] + init;
      assert pre + [h] + body == s + [l];
      BlocksExtend(s, l);
      var bs := Blocks(s);
      assert bs[..|bs| - 1] == Blocks(pre);
      assert bs[|bs| - 1] + [l] == [h[4..]] + body;
    }
  }

  /** A heading line opens a new block. */
  lemma BlocksOpen(ls: seq<string>, h: string)
    requires StartsWith(h, "### ")
    ensures Blocks(ls + [h]) == Blocks(ls) + [[h[4..]]]
  {
    assert (ls + [h])[..|ls|] == ls;
  }

  /** Any other line joins the last block, when there is one. */
  lemma BlocksExtend(ls: seq<string>, l: string)
    requires !StartsWith(l, "### ") && Blocks(ls) != []
    ensures var bs := Blocks(ls); Blocks(ls + [l]) == bs[..|bs| - 1] + [bs[|bs| - 1] + [l]]
  {
    assert (ls + [l])[..|ls|] == ls;
  }

  /** The lines of a block whose stripped text starts with `- [ ]`, as they are. */
  function Cleaned(ts: seq<string>): seq<string> {
    if ts == [] then []
    else
      var t := ts[|ts| - 1];
      Cleaned(ts[..|ts| - 1]) + (if StartsWith(Strip(t), "- [ ]") then [t] else [])
  }

  lemma {:induction false} CleanedSpec(ts: seq<string>)
    ensures Subseq(Cleaned(ts), ts)
    ensures forall t :: t in Cleaned(ts) ==> StartsWith(Strip(t), "- [ ]")
    ensures forall i :: 0 <= i < |ts| && StartsWith(Strip(ts[i]), "- [ ]") ==> ts[i] in Cleaned(ts)
  {
    if ts != [] {
      var init, t := ts[..|ts| - 1], ts[|ts| - 1];
      CleanedSpec(init);
      var e := if StartsWith(Strip(t), "- [ ]") then [t] else [];
      if e == [t] {
        SubseqRefl([t]);
      }
      SubseqAppend(Cleaned(init), init, e, [t]);
      assert ts == init + [t];
      assert forall i :: 0 <= i < |init| ==> init[i] == ts[i];
    }
  }

  /** What one block contributes. `Malformed` is a block with no text at
      all, where `header, *tarefas = []` raises `ValueError`. */
  datatype Entry = Malformed | Skipped | Dated(date: string, task: FutureTask)

  /** One turn of the loop over the blocks. */
  function BlockEntry(block: seq<string>): Entry {
    var ls := SplitLines(Strip(Join(block)));
    if ls == [] then Malformed
    else
      match MatchWordDate(ls[0])
      case None => Skipped
      case Some((w, dt)) =>
        var kept := Cleaned(ls[1..]);
        if kept == [] then Skipped else Dated(dt, FutureTask(w + " (" + dt + ")", kept))
  }

  /** The day header of a note, as the insertion pass reads it. */
  function HeaderDate(line: string): Option<string> {
    match ExtractDayDate(line)
    case Some((_, dt)) => Some(dt)
    case None => None
  }

  /** What an entry holds: at least one task line, each starting `- [ ]`
      once stripped, and a header that, written as `### header` in a note,
      is a day header of the entry's own date. */
  predicate WellFormed(dt: string, t: FutureTask) {
    t.tasks != [] &&
    (forall i :: 0 <= i < |t.tasks| ==> StartsWith(Strip(t.tasks[i]), "- [ ]")) &&
    HeaderDate("### " + t.header) == Some(dt)
  }

  lemma DatedSpec(block: seq<string>)
    requires BlockEntry(block).Dated?
    ensures WellFormed(BlockEntry(block).date, BlockEntry(block).task)
  {
    var ls := SplitLines(Strip(Join(block)));
    var m := MatchWordDate(ls[0]).value;
    MatchWordDateShape(ls[0]);
    HeaderOfEntry(m.0, m.1);
    CleanedSpec(ls[1..]);
  }

  /** The header an entry keeps, `word (DD/MM)`, reads back as its date. */
  lemma HeaderOfEntry(w: string, dt: string)
    requires IsWord(w) && |dt| == 5 && DDMMAt(dt, 0)
    ensures HeaderDate("### " + (w + " (" + dt + ")")) == Some(dt)
  {
    ExtractDayDateOf(w, dt, "");
    assert "### " + w + " (" + dt + ")" + "" == "### " + (w + " (" + dt + ")");
  }

  /** What each block contributes, in order. */
  function Entries(bs: seq<seq<string>>): (es: seq<Entry>)
    ensures |es| == |bs| && forall i :: 0 <= i < |bs| ==> es[i] == BlockEntry(bs[i])
  {
    seq(|bs|, i requires 0 <= i < |bs| => BlockEntry(bs[i]))
  }

  /** The dictionary after the entries `es`, or `None` once a block was
      malformed. */
  function FuturesOf(es: seq<Entry>): (r: Option<Dict<FutureTask>>)
    ensures r.Some? ==> Valid(r.value)
  {
    if es == [] then Some(Empty())
    else
      match FuturesOf(es[..|es| - 1])
      case None => None
      case Some(d) =>
        match es[|es| - 1]
        case Malformed => None
        case Skipped => Some(d)
        case Dated(dt, t) => Some(Put(d, dt, t))
  }

  /** `parse_tarefas_futuras` on the file's text; `None` where it raises. */
  function ParseFutures(content: string): Option<Dict<FutureTask>> {
    FuturesOf(Entries(Blocks(Split(content))))
  }

  method ParseFutureTasks(content: string) returns (r: Option<Dict<FutureTask>>)
    ensures r == ParseFutures(content)
  {
    var es := Entries(Blocks(Split(content)));
    r := CollectEntries(es);
  }

  /** `for bloco in blocos: ...` */
  method CollectEntries(es: seq<Entry>) returns (r: Option<Dict<FutureTask>>)
    ensures r == FuturesOf(es)
  {
    var d: Dict<FutureTask> := Empty();
    for i := 0 to |es|
      invariant FuturesOf(es[..i]) == Some(d)
    {
      assert es[..i + 1][..i] == es[..i];
      var e := es[i];
      if e.Malformed? {
        MalformedFails(es, i);
        return None;
      }
      if e.Dated? {
        d := Put(d, e.date, e.task);
      }
    }
    assert es[..|es|] == es;
    r := Some(d);
  }

  /** The `(date, entry)` pairs of the dated blocks, in file order. */
  function DatedPairs(es: seq<Entry>): seq<(string, FutureTask)> {
    if es == [] then []
    else
      DatedPairs(es[..|es| - 1]) +
        match es[|es| - 1]
        case Dated(dt, t) => [(dt, t)]
        case _ => []
  }

  /** The parse fails exactly when some block is malformed. */
  lemma {:induction false} FuturesFail(es: seq<Entry>)
    ensures FuturesOf(es).None? <==> Malformed in es
  {
    if es != [] {
      var init, e := es[..|es| - 1], es[|es| - 1];
      FuturesFail(init);
      assert es == init + [e];
      assert Malformed in es <==> Malformed in init || e == Malformed;
    }
  }

  /** A parse that succeeds is the dictionary built by assigning the dated
      pairs in turn, so a date given twice keeps the position of its first
      block and the entry of its last. */
  lemma {:induction false} FuturesPairs(es: seq<Entry>)
    requires FuturesOf(es).Some?
    ensures FuturesOf(es).value == FromPairs(DatedPairs(es))
  {
    if es != [] {
      var init, e := es[..|es| - 1], es[|es| - 1];
      FuturesPairs(init);
      var d := FuturesOf(init).value;
      match e
      case Dated(dt, t) =>
        assert DatedPairs(es) == DatedPairs(init) + [(dt, t)];
        FromPairsSnoc(DatedPairs(init), (dt, t));
      case Skipped =>
        assert DatedPairs(es) == DatedPairs(init);
    }
  }

  /** One malformed block anywhere makes the whole parse fail. */
  lemma MalformedFails(es: seq<Entry>, i: int)
    requires 0 <= i < |es| && es[i].Malformed?
    ensures FuturesOf(es) == None
  {
    FuturesFail(es);
  }

  /** Every entry of a successful parse is well formed under its date. */
  lemma {:induction false} FuturesWellFormed(bs: seq<seq<string>>)
    requires FuturesOf(Entries(bs)).Some?
    ensures var d := FuturesOf(Entries(bs)).value;
      forall dt :: dt in d.vals ==> WellFormed(dt, d.vals[dt])
  {
    if bs != [] {
      var init, b := bs[..|bs| - 1], bs[|bs| - 1];
      assert Entries(bs)[..|bs| - 1] == Entries(init);
      FuturesWellFormed(init);
      if BlockEntry(b).Dated? {
        DatedSpec(b);
      }
    }
  }

  // ---------------------------------------------------------------------
  // Insertion (`inserir_tarefas_no_markdown`)
  // ---------------------------------------------------------------------

  /** The line after which the pending tasks go, compared once stripped. */
  const Anchor := "- [ ] Organizar tarefas semanais"

  /** The recogniser of day headers the pass uses; the definitions below
      take it as `dateOf`, so that they hold for it without unfolding it. */
  function HeaderDateOf(): string -> Option<string> {
    line => HeaderDate(line)
  }

  /** The output so far and the entries not yet placed. */
  datatype Weaving = Weaving(out: seq<string>, future: Dict<FutureTask>)

  /** What the pending tasks put behind `line`. */
  function PendingAfter(line: string, pending: seq<string>): seq<string> {
    if Strip(line) == Anchor then pending else []
  }

  /** One turn of the loop over the note's lines: copy the line, the
      pending tasks after the anchor, and after a day header whose date has
      an entry its tasks and a blank line, removing the entry. */
  function Step(st: Weaving, line: string, pending: seq<string>, dateOf: string -> Option<string>): (r: Weaving)
    requires Valid(st.future)
    ensures Valid(r.future)
  {
    var out := st.out + [line] + PendingAfter(line, pending);
    match dateOf(line)
    case Some(dt) =>
      if dt in st.future.vals then Weaving(out + st.future.vals[dt].tasks + [""], Delete(st.future, dt))
      else Weaving(out, st.future)
    case None => Weaving(out, st.future)
  }

  /** The state after the loop has seen `md`. */
  function Run(md: seq<string>, pending: seq<string>, future: Dict<FutureTask>, dateOf: string -> Option<string>): (r: Weaving)
    requires Valid(future)
    ensures Valid(r.future)
  {
    if md == [] then Weaving([], future)
    else Step(Run(md[..|md| - 1], pending, future, dateOf), md[|md| - 1], pending, dateOf)
  }

  /** The sections for the entries of `ks`, in that order. */
  function Appended(ks: seq<string>, vals: map<string, FutureTask>): seq<string>
    requires forall k :: k in ks ==> k in vals
  {
    if ks == [] then []
    else
      var k := ks[|ks| - 1];
      Appended(ks[..|ks| - 1], vals) + ["### " + vals[k].header] + vals[k].tasks
  }

  /** What follows the copied note: nothing if every entry was placed,
      else two blank lines and a section per remaining entry. */
  function Tail(f: Dict<FutureTask>): seq<string>
    requires Valid(f)
  {
    if f.keys == [] then [] else ["", ""] + Appended(f.keys, f.vals)
  }

  /** `inserir_tarefas_no_markdown(md_lines, tarefas_pendentes, tarefas_futuras)` */
  function Organized(md: seq<string>, pending: seq<string>, future: Dict<FutureTask>): seq<string>
    requires Valid(future)
  {
    var st := Run(md, pending, future, HeaderDateOf());
    st.out + Tail(st.future)
  }

  /** The lines returned and, as `remaining`, what the loop leaves of the
      caller's dictionary, which it empties of every placed date. */
  method InsertWeeklyTasks(md: seq<string>, pending: seq<string>, future: Dict<FutureTask>)
    returns (out: seq<string>, remaining: Dict<FutureTask>)
    requires Valid(future)
    ensures out == Organized(md, pending, future)
    ensures remaining == Run(md, pending, future, HeaderDateOf()).future
  {
    out, remaining := [], future;
    for i := 0 to |md|
      invariant Valid(remaining)
      invariant Weaving(out, remaining) == Run(md[..i], pending, future, HeaderDateOf())
    {
      assert md[..i + 1][..i] == md[..i];
      out, remaining := WeaveLine(out, remaining, md[i], pending);
    }
    assert md[..|md|] == md;
    var tail := RemainingSections(remaining);
    out := out + tail;
  }

  method WeaveLine(out0: seq<string>, f0: Dict<FutureTask>, line: string, pending: seq<string>)
    returns (out: seq<string>, f: Dict<FutureTask>)
    requires Valid(f0)
    ensures Weaving(out, f) == Step(Weaving(out0, f0), line, pending, HeaderDateOf())
  {
    out, f := out0 + [line], f0;
    if Strip(line) == Anchor {
      out := AppendAll(out, pending);
    }
    var date := HeaderDate(line);
    if date.Some? && date.value in f.vals {
      out := AppendAll(out, f.vals[date.value].tasks);
      out := out + [""];
      f := Delete(f, date.value);
    }
  }

  /** `if tarefas_futuras: ...` after the loop. */
  method RemainingSections(f: Dict<FutureTask>) returns (tail: seq<string>)
    requires Valid(f)
    ensures tail == Tail(f)
  {
    tail := [];
    if f.keys != [] {
      tail := ["", ""];
      for j := 0 to |f.keys|
        invariant tail == ["", ""] + Appended(f.keys[..j], f.vals)
      {
        assert f.keys[..j + 1][..j] == f.keys[..j];
        var k := f.keys[j];
        tail := tail + ["### " + f.vals[k].header];
        tail := AppendAll(tail, f.vals[k].tasks);
      }
      assert f.keys[..|f.keys|] == f.keys;
    }
  }

  /** `for x in xs: out.append(x)` */
  method AppendAll(a: seq<string>, xs: seq<string>) returns (r: seq<string>)
    ensures r == a + xs
  {
    r := a;
    for j := 0 to |xs|
      invariant r == a + xs[..j]
    {
      assert xs[..j + 1] == xs[..j] + [xs[j]];
      r := r + [xs[j]];
    }
    assert xs[..|xs|] == xs;
  }

  // ---------------------------------------------------------------------
  // What the insertion promises
  // ---------------------------------------------------------------------

  /** The dates of the day headers among `md`. */
  function HeaderDates(md: seq<string>, dateOf: string -> Option<string>): set<string> {
    if md == [] then {}
    else
      var l := md[|md| - 1];
      HeaderDates(md[..|md| - 1], dateOf) + match dateOf(l) case Some(dt) => {dt} case None => {}
  }

  lemma {:induction false} HeaderDatesSpec(md: seq<string>, dateOf: string -> Option<string>, dt: string)
    ensures dt in HeaderDates(md, dateOf) <==> exists i :: 0 <= i < |md| && dateOf(md[i]) == Some(dt)
  {
    if md != [] {
      var init := md[..|md| - 1];
      HeaderDatesSpec(init, dateOf, dt);
      assert forall i :: 0 <= i < |init| ==> init[i] == md[i];
    }
  }

  /** The entries left after the loop are those whose date heads no day of
      the note, in their original order and unchanged. */
  lemma {:induction false} RunFuture(md: seq<string>, pending: seq<string>, future: Dict<FutureTask>, dateOf: string -> Option<string>)
    requires Valid(future)
    ensures Run(md, pending, future, dateOf).future ==
      Dict(Kept(future.keys, HeaderDates(md, dateOf)), future.vals - HeaderDates(md, dateOf))
  {
    if md == [] {
      KeptNone(future.keys);
      assert future.vals - {} == future.vals;
    } else {
      var init, l := md[..|md| - 1], md[|md| - 1];
      RunFuture(init, pending, future, dateOf);
      var seen := HeaderDates(init, dateOf);
      var st := Run(init, pending, future, dateOf);
      match dateOf(l)
      case None =>
        assert HeaderDates(md, dateOf) == seen;
      case Some(dt) =>
        assert HeaderDates(md, dateOf) == seen + {dt};
        WithoutKept(future.keys, seen, dt);
        assert future.vals - seen - {dt} == future.vals - (seen + {dt});
        if dt !in st.future.vals {
          assert dt !in Kept(future.keys, seen);
          WithoutAbsent(Kept(future.keys, seen), dt);
          assert future.vals - seen == future.vals - (seen + {dt});
        }
    }
  }

  /** What follows a day header: the tasks of its date and a blank line if
      this is the first header of a date with an entry, else nothing. */
  function DateAfter(line: string, seen: set<string>, future: Dict<FutureTask>, dateOf: string -> Option<string>): seq<string> {
    match dateOf(line)
    case Some(dt) => if dt in future.vals && dt !in seen then future.vals[dt].tasks + [""] else []
    case None => []
  }

  /** Each line is copied and followed by the pending tasks if it is the
      anchor, then by its date's tasks if it is the first header of that
      date: stated on the original dictionary, not on the loop's state. */
  lemma RunLine(md: seq<string>, line: string, pending: seq<string>, future: Dict<FutureTask>, dateOf: string -> Option<string>)
    requires Valid(future)
    ensures Run(md + [line], pending, future, dateOf).out ==
      Run(md, pending, future, dateOf).out + [line] + PendingAfter(line, pending) + DateAfter(line, HeaderDates(md, dateOf), future, dateOf)
  {
    RunLast(md + [line], pending, future, dateOf);
    assert (md + [line])[..|md|] == md;
  }

  /** Every line of the note is in the loop's output, in order. */
  lemma {:induction false} RunKeeps(md: seq<string>, pending: seq<string>, future: Dict<FutureTask>, dateOf: string -> Option<string>)
    requires Valid(future)
    ensures Subseq(md, Run(md, pending, future, dateOf).out)
  {
    if md == [] {
      SubseqRefl([]);
    } else {
      var init, l := md[..|md| - 1], md[|md| - 1];
      RunKeeps(init, pending, future, dateOf);
      RunLast(md, pending, future, dateOf);
      var before := Run(init, pending, future, dateOf).out;
      var extra := PendingAfter(l, pending) + DateAfter(l, HeaderDates(init, dateOf), future, dateOf);
      Regroup(before, [l], PendingAfter(l, pending), DateAfter(l, HeaderDates(init, dateOf), future, dateOf));
      SubseqLast(md, before, extra);
    }
  }

  /** The loop's output grows by the last line of a non-empty note and what follows it. */
  lemma RunLast(md: seq<string>, pending: seq<string>, future: Dict<FutureTask>, dateOf: string -> Option<string>)
    requires Valid(future) && md != []
    ensures var init, l := md[..|md| - 1], md[|md| - 1];
      Run(md, pending, future, dateOf).out ==
      Run(init, pending, future, dateOf).out + [l] + PendingAfter(l, pending) + DateAfter(l, HeaderDates(init, dateOf), future, dateOf)
  {
    RunFuture(md[..|md| - 1], pending, future, dateOf);
  }

  /** `SubseqSnoc` for the last element of a non-empty sequence. */
  lemma SubseqLast(a: seq<string>, b: seq<string>, extra: seq<string>)
    requires a != [] && Subseq(a[..|a| - 1], b)
    ensures Subseq(a, b + [a[|a| - 1]] + extra)
  {
    SubseqSnoc(a[..|a| - 1], b, a[|a| - 1], extra);
    assert a == a[..|a| - 1] + [a[|a| - 1]];
  }

  /** A line copied and followed by others keeps a subsequence one. */
  lemma SubseqSnoc(a: seq<string>, b: seq<string>, l: string, extra: seq<string>)
    requires Subseq(a, b)
    ensures Subseq(a + [l], b + [l] + extra)
  {
    SubseqRefl([]);
    SubseqPrefix([], extra, []);
    assert extra + [] == extra;
    SubseqAppend([l], [l], [], extra);
    assert [l] + [] == [l];
    SubseqAppend(a, b, [l], [l] + extra);
    assert b + [l] + extra == b + ([l] + extra);
  }

  /** Every line of the note is in the result, in order. */
  lemma OrganizedKeeps(md: seq<string>, pending: seq<string>, future: Dict<FutureTask>)
    requires Valid(future)
    ensures Subseq(md, Organized(md, pending, future))
  {
    var st := Run(md, pending, future, HeaderDateOf());
    RunKeeps(md, pending, future, HeaderDateOf());
    SubseqRefl([]);
    SubseqPrefix([], Tail(st.future), []);
    assert Tail(st.future) + [] == Tail(st.future);
    SubseqAppend(md, st.out, [], Tail(st.future));
    assert md + [] == md;
  }

  /** Each entry is placed once: after the first day header of its date if
      the note has one (it is then gone from the dictionary), in the tail
      otherwise (it is still there). */
  lemma PlacedOnce(md: seq<string>, pending: seq<string>, future: Dict<FutureTask>, dt: string)
    requires Valid(future) && dt in future.keys
    ensures dt in Run(md, pending, future, HeaderDateOf()).future.keys <==>
      !exists i :: 0 <= i < |md| && HeaderDate(md[i]) == Some(dt)
  {
    RunFuture(md, pending, future, HeaderDateOf());
    HeaderDatesSpec(md, HeaderDateOf(), dt);
  }

  lemma {:induction false} AppendedAppend(a: seq<string>, b: seq<string>, vals: map<string, FutureTask>)
    requires forall k :: k in a + b ==> k in vals
    ensures Appended(a + b, vals) == Appended(a, vals) + Appended(b, vals)
    decreases |b|
  {
    if b == [] {
      assert a + b == a;
    } else {
      var init := b[..|b| - 1];
      assert (a + b)[..|a + b| - 1] == a + init;
      AppendedAppend(a, init, vals);
    }
  }

  /** The tail holds, for the `j`-th remaining entry in dictionary order,
      its header line and then its tasks, between the sections of the
      entries before and after it. */
  lemma TailSection(f: Dict<FutureTask>, j: int)
    requires Valid(f) && 0 <= j < |f.keys|
    ensures var k := f.keys[j];
      Tail(f) == ["", ""] + Appended(f.keys[..j], f.vals) + ["### " + f.vals[k].header] + f.vals[k].tasks + Appended(f.keys[j + 1..], f.vals)
  {
    var k, pre, post := f.keys[j], f.keys[..j], f.keys[j + 1..];
    assert f.keys == pre + [k] + post;
    AppendedAppend(pre + [k], post, f.vals);
    AppendedSnoc(pre, k, f.vals);
    ConcatAssoc(["", ""], Appended(pre, f.vals), ["### " + f.vals[k].header], f.vals[k].tasks, Appended(post, f.vals));
  }

  lemma Regroup(a: seq<string>, b: seq<string>, c: seq<string>, d: seq<string>)
    ensures a + b + c + d == a + b + (c + d)
  {
  }

  lemma ConcatAssoc(e: seq<string>, a: seq<string>, h: seq<string>, t: seq<string>, b: seq<string>)
    ensures e + (a + h + t + b) == e + a + h + t + b
  {
  }

  /** One more key is one more section. */
  lemma AppendedSnoc(ks: seq<string>, k: string, vals: map<string, FutureTask>)
    requires forall x :: x in ks + [k] ==> x in vals
    ensures Appended(ks + [k], vals) == Appended(ks, vals) + ["### " + vals[k].header] + vals[k].tasks
  {
    assert (ks + [k])[..|ks|] == ks;
  }

  /** The whole run (`main` without the files): the note's text, the pending
      file's text and the future file's text give the new note's text, or
      `None` where the future file makes the parse raise. */
  function WeeklyUpdate(note: string, pendingFile: string, futureFile: string): Option<string> {
    match ParseFutures(futureFile)
    case None => None
    case Some(future) => Some(Join(Organized(SplitLines(note), ParsePending(pendingFile), future)))
  }

  // ---------------------------------------------------------------------
  // The file `main` writes
  // ---------------------------------------------------------------------

  /** `main`: the note's `splitlines()` with the tasks of the two task files
      woven in, written back as `"\n".join(novo_md)`; `None` where
      `parse_tarefas_futuras` raises. */
  function OrganizedNoteText(note: string, pendingText: string, futureText: string): Option<string> {
    match ParseFutures(futureText)
    case None => None
    case Some(f) => Some(Join(Organized(SplitLines(note), ParsePending(pendingText), f)))
  }

  /** A one-line note ending in a line break is written back without it. */
  lemma OrganizedDropsFinalNewline(l: string)
    requires NoNewline(l)
    ensures OrganizedNoteText(l + "\n", "", "") == Some(l)
  {
    EmptyTaskFiles();
    FinalBreakLines(l);
    OneLineUnchanged(l);
    assert Join([l]) == l;
  }

  /** Empty task files give no pending task and no future entry. */
  lemma EmptyTaskFiles()
    ensures ParsePending("") == [] && ParseFutures("") == Some(Empty())
  {
    assert SplitLines("") == [];
    SplitJoin([""]);
    assert Split("") == [""];
    assert !StartsWith("", "### ");
    assert Blocks([""]) == [];
  }

  /** The lines of a single line followed by a line break. */
  lemma FinalBreakLines(l: string)
    requires NoNewline(l)
    ensures SplitLines(l + "\n") == [l]
  {
    var ls := [l, ""];
    assert ls[1..] == [""];
    assert Join(ls) == l + "\n" + Join([""]);
    assert Join([""]) == "";
    assert l + "\n" + "" == l + "\n";
    assert AllNoNewline(ls);
    SplitLinesJoinAny(ls);
    assert DropLastEmpty(ls) == ls[..1] == [l];
  }

  /** With nothing to insert a single line comes out as it is. */
  lemma OneLineUnchanged(l: string)
    ensures Organized([l], [], Empty()) == [l]
  {
    assert [l][..0] == [];
    assert Run([l], [], Empty(), HeaderDateOf()) == Weaving([l], Empty());
  }
}
