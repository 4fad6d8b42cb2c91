/** `update_note_with_tasks` of `modules/task_processor.py`: the new week's
    note receives the pending blocks under Monday's planning line and the
    future blocks in the sections of their dates. */
module TaskInsertion {
  import opened Text
  import opened Dict
  import opened DayNotes
  import opened TaskSelection
  import opened NoteRender
  import opened Dates

  /** The planning line the pending blocks go under. */
  const Anchor := "Organizar tarefas semanais"

  // ---------------------------------------------------------------------
  // Pending blocks under the anchor
  // ---------------------------------------------------------------------

  /** The lines of the blocks, one block after another. */
  function Concat(bs: seq<seq<string>>): seq<string> {
    if bs == [] then [] else Concat(bs[..|bs| - 1]) + bs[|bs| - 1]
  }

  /** The lines with `ins` put right after every line holding the anchor. */
  function InsertAfterAnchor(lines: seq<string>, ins: seq<string>): seq<string> {
    if lines == [] then []
    else
      var last := lines[|lines| - 1];
      InsertAfterAnchor(lines[..|lines| - 1], ins) + [last] + (if Contains(last, Anchor) then ins else [])
  }

  /** `for line in lines: new_lines.append(line); if anchor in line: ...`. */
  method InsertPending(lines: seq<string>, pending: seq<seq<string>>) returns (out: seq<string>)
    ensures out == InsertAfterAnchor(lines, Concat(pending))
  {
    out := [];
    for i := 0 to |lines|
      invariant out == InsertAfterAnchor(lines[..i], Concat(pending))
    {
      assert lines[..i + 1][..i] == lines[..i];
      out := out + [lines[i]];
      if Contains(lines[i], Anchor) {
        for j := 0 to |pending|
          invariant out == InsertAfterAnchor(lines[..i], Concat(pending)) + [lines[i]] + Concat(pending[..j])
        {
          assert pending[..j + 1][..j] == pending[..j];
          out := out + pending[j];
        }
        assert pending[..|pending|] == pending;
      }
    }
    assert lines[..|lines|] == lines;
  }

  lemma {:induction false} InsertAppend(a: seq<string>, b: seq<string>, ins: seq<string>)
    ensures InsertAfterAnchor(a + b, ins) == InsertAfterAnchor(a, ins) + InsertAfterAnchor(b, ins)
    decreases |b|
  {
    if b == [] {
      assert a + b == a;
    } else {
      var init := b[..|b| - 1];
      InsertAppend(a, init, ins);
      assert (a + b)[..|a + b| - 1] == a + init;
    }
  }

  /** Every line keeps its place relative to the others: the original lines
      are a subsequence of the result. */
  lemma {:induction false} InsertOnlyAdds(lines: seq<string>, ins: seq<string>)
    ensures Subseq(lines, InsertAfterAnchor(lines, ins))
  {
    if lines != [] {
      var init, last := lines[..|lines| - 1], lines[|lines| - 1];
      InsertOnlyAdds(init, ins);
      var extra := if Contains(last, Anchor) then ins else [];
      SubseqRefl([last]);
      assert Subseq([], extra) by {
        SubseqRefl([]);
        SubseqPrefix([], extra, []);
        assert extra + [] == extra;
      }
      SubseqAppend([last], [last], [], extra);
      assert [last] + [] == [last];
      SubseqAppend(init, InsertAfterAnchor(init, ins), [last], [last] + extra);
      assert lines == init + [last];
      assert InsertAfterAnchor(lines, ins) == InsertAfterAnchor(init, ins) + ([last] + extra);
    }
  }

  /** Without an anchor line nothing is inserted. */
  lemma {:induction false} InsertNoAnchor(lines: seq<string>, ins: seq<string>)
    requires forall k :: 0 <= k < |lines| ==> !Contains(lines[k], Anchor)
    ensures InsertAfterAnchor(lines, ins) == lines
  {
    if lines != [] {
      InsertNoAnchor(lines[..|lines| - 1], ins);
    }
  }

  /** Line `i` lands at `Pos(lines, ins, i)`, and when it holds the anchor
      the inserted lines follow it directly. */
  function Pos(lines: seq<string>, ins: seq<string>, i: int): int
    requires 0 <= i <= |lines|
  {
    |InsertAfterAnchor(lines[..i], ins)|
  }

  lemma InsertAt(lines: seq<string>, ins: seq<string>, i: int)
    requires 0 <= i < |lines|
    ensures var r, p := InsertAfterAnchor(lines, ins), Pos(lines, ins, i);
      p < |r| && r[p] == lines[i] &&
      (Contains(lines[i], Anchor) ==> p + 1 + |ins| <= |r| && r[p + 1..p + 1 + |ins|] == ins)
  {
    var a, b := lines[..i + 1], lines[i + 1..];
    assert lines == a + b;
    InsertAppend(a, b, ins);
    assert a[..i] == lines[..i];
  }

  // ---------------------------------------------------------------------
  // Future blocks into their sections
  // ---------------------------------------------------------------------

  /** `"\n".join(["\n".join(task_block) for task_block in tasks])`. */
  function TaskContent(tasks: seq<seq<string>>): string {
    Join(BlockTexts(tasks))
  }

  function BlockTexts(tasks: seq<seq<string>>): (r: seq<string>)
    ensures |r| == |tasks| && forall i :: 0 <= i < |tasks| ==> r[i] == Join(tasks[i])
  {
    if tasks == [] then [] else [Join(tasks[0])] + BlockTexts(tasks[1..])
  }

  /** The Monday step: the first section whose header holds `Monday` gets the
      pending lines under each anchor line. */
  function MondayStep(d: Dict<string>, pending: seq<seq<string>>): (r: Dict<string>)
    requires Valid(d)
    ensures Valid(r)
  {
    var m := FirstWith(d.keys, "Monday");
    if m < 0 then d
    else
      var k := d.keys[m];
      Put(d, k, Join(InsertAfterAnchor(SplitLines(d.vals[k]), Concat(pending))))
  }

  /** One future date: its blocks go at the end of the first section whose
      header holds the date, or into a new section `### <header>`. */
  function FutureStep(d: Dict<string>, date: string, info: FutureInfo): (r: Dict<string>)
    requires Valid(d)
    ensures Valid(r)
  {
    var t := FirstWith(d.keys, date);
    if t >= 0 then
      var k := d.keys[t];
      Put(d, k, d.vals[k] + "\n" + TaskContent(info.tasks))
    else Put(d, "### " + info.header, TaskContent(info.tasks))
  }

  /** The sections after the first `n` future dates have been placed. */
  function Placed(d: Dict<string>, future: Dict<FutureInfo>, n: int): (r: Dict<string>)
    requires Valid(d) && Valid(future) && 0 <= n <= |future.keys|
    ensures Valid(r)
  {
    if n == 0 then d
    else
      var date := future.keys[n - 1];
      FutureStep(Placed(d, future, n - 1), date, future.vals[date])
  }

  /** The new note: the preamble, then every section, bodies unstripped. */
  function UpdatedNote(content: string, pending: seq<seq<string>>, future: Dict<FutureInfo>): string
    requires Valid(future)
  {
    var lines := Split(content);
    var d := MondayStep(FromPairs(Matches(lines, |lines|)), pending);
    RenderNote(Preamble(lines), Placed(d, future, |future.keys|), false)
  }

  /** The Monday part of `update_note_with_tasks`. */
  method AddPendingToMonday(d: Dict<string>, pending: seq<seq<string>>) returns (r: Dict<string>)
    requires Valid(d)
    ensures r == MondayStep(d, pending)
  {
    var m := FindSection(d.keys, "Monday");
    r := d;
    if m >= 0 {
      var k := d.keys[m];
      var lines := InsertPending(SplitLines(d.vals[k]), pending);
      r := Put(d, k, Join(lines));
    }
  }

  /** `"\n".join(...)` of the blocks of one date. */
  method JoinBlocks(tasks: seq<seq<string>>) returns (s: string)
    ensures s == TaskContent(tasks)
  {
    var texts: seq<string> := [];
    for i := 0 to |tasks|
      invariant texts == BlockTexts(tasks[..i])
    {
      BlockTextsSnoc(tasks[..i], tasks[i]);
      assert tasks[..i + 1] == tasks[..i] + [tasks[i]];
      texts := texts + [Join(tasks[i])];
    }
    assert tasks[..|tasks|] == tasks;
    s := Join(texts);
  }

  lemma BlockTextsSnoc(tasks: seq<seq<string>>, b: seq<string>)
    ensures BlockTexts(tasks + [b]) == BlockTexts(tasks) + [Join(b)]
  {
  }

  /** The future part of `update_note_with_tasks`. */
  method AddFutureBlocks(d: Dict<string>, future: Dict<FutureInfo>) returns (r: Dict<string>)
    requires Valid(d) && Valid(future)
    ensures r == Placed(d, future, |future.keys|)
  {
    r := d;
    for i := 0 to |future.keys|
      invariant r == Placed(d, future, i)
    {
      r := PlaceNext(d, future, i, r);
    }
  }

  /** Places date `i` on top of the first `i`. */
  method PlaceNext(d: Dict<string>, future: Dict<FutureInfo>, i: int, r0: Dict<string>) returns (r: Dict<string>)
    requires Valid(d) && Valid(future) && 0 <= i < |future.keys|
    requires r0 == Placed(d, future, i)
    ensures r == Placed(d, future, i + 1)
  {
    var date := future.keys[i];
    r := PlaceDate(r0, date, future.vals[date]);
  }

  /** One turn of `for date, info in future_tasks.items()`. */
  method PlaceDate(d: Dict<string>, date: string, info: FutureInfo) returns (r: Dict<string>)
    requires Valid(d)
    ensures r == FutureStep(d, date, info)
  {
    var t := FindSection(d.keys, date);
    var content := JoinBlocks(info.tasks);
    if t >= 0 {
      var k := d.keys[t];
      r := Put(d, k, d.vals[k] + "\n" + content);
    } else {
      r := Put(d, "### " + info.header, content);
    }
  }

  method UpdateNoteWithTasks(content: string, pending: seq<seq<string>>, future: Dict<FutureInfo>)
    returns (out: string)
    requires Valid(future)
    ensures out == UpdatedNote(content, pending, future)
  {
    var header, sections := ParseDaySections(content);
    var withPending := AddPendingToMonday(sections, pending);
    var placed := AddFutureBlocks(withPending, future);
    out := Rebuild(header, placed, false);
  }

  // ---------------------------------------------------------------------
  // What placing future blocks promises
  // ---------------------------------------------------------------------

  /** `e` extends `d`: the sections of `d` keep their places at the front,
      and each of their bodies is only added to at the end. */
  predicate Grows(d: Dict<string>, e: Dict<string>)
    requires Valid(d) && Valid(e)
  {
    |d.keys| <= |e.keys| && e.keys[..|d.keys|] == d.keys &&
    forall k :: k in d.keys ==> IsPrefix(d.vals[k], e.vals[k])
  }

  /** Each date's header names the date, as `extract_future_tasks` makes it. */
  predicate HeadersNameDates(future: Dict<FutureInfo>) {
    forall date :: date in future.vals ==> Contains(future.vals[date].header, date)
  }

  lemma GrowsTrans(a: Dict<string>, b: Dict<string>, c: Dict<string>)
    requires Valid(a) && Valid(b) && Valid(c)
    requires Grows(a, b) && Grows(b, c)
    ensures Grows(a, c)
  {
    assert c.keys[..|a.keys|] == c.keys[..|b.keys|][..|a.keys|];
    forall k | k in a.keys ensures IsPrefix(a.vals[k], c.vals[k]) {
      assert k in b.keys;
      assert c.vals[k][..|a.vals[k]|] == c.vals[k][..|b.vals[k]|][..|a.vals[k]|];
    }
  }

  /** A text that starts a section header also names the date. */
  lemma ContainsShift(p: string, h: string, date: string)
    requires Contains(h, date)
    ensures Contains(p + h, date)
    decreases |p|
  {
    if p != [] {
      ContainsShift(p[1..], h, date);
      assert (p + h)[1..] == p[1..] + h;
    } else {
      assert p + h == h;
    }
  }

  /** Placing one date only appends: to the body of the section holding the
      date, or a new section at the end. */
  lemma FutureStepGrows(d: Dict<string>, date: string, info: FutureInfo)
    requires Valid(d) && Contains(info.header, date)
    ensures Grows(d, FutureStep(d, date, info))
  {
    var r := FutureStep(d, date, info);
    var t := FirstWith(d.keys, date);
    if t >= 0 {
      var k := d.keys[t];
      assert (d.vals[k] + "\n" + TaskContent(info.tasks))[..|d.vals[k]|] == d.vals[k];
    } else {
      var h := "### " + info.header;
      ContainsShift("### ", info.header, date);
      assert h !in d.keys;
      assert r.keys == d.keys + [h];
      assert r.keys[..|d.keys|] == d.keys;
    }
  }

  /** After placing date `n - 1`, some section's body ends with its blocks. */
  lemma FutureStepPlaces(d: Dict<string>, date: string, info: FutureInfo)
    requires Valid(d)
    ensures Holds(FutureStep(d, date, info), TaskContent(info.tasks))
  {
    var t := FirstWith(d.keys, date);
    var c := TaskContent(info.tasks);
    if t >= 0 {
      var k := d.keys[t];
      ContainsSuffix(d.vals[k] + "\n", c);
      assert k in FutureStep(d, date, info).keys;
    } else {
      var h := "### " + info.header;
      ContainsSuffix([], c);
      assert [] + c == c;
      assert h in FutureStep(d, date, info).keys;
    }
  }

  /** A note grows into itself. */
  lemma GrowsRefl(d: Dict<string>)
    requires Valid(d)
    ensures Grows(d, d)
  {
    assert d.keys[..|d.keys|] == d.keys;
    forall k | k in d.keys ensures IsPrefix(d.vals[k], d.vals[k]) {
      assert d.vals[k][..|d.vals[k]|] == d.vals[k];
    }
  }

  /** Placing future blocks only appends to the note: from `m` placed dates
      to `n >= m`. */
  lemma {:induction false} PlacedGrows(d: Dict<string>, future: Dict<FutureInfo>, m: int, n: int)
    requires Valid(d) && Valid(future) && 0 <= m <= n <= |future.keys|
    requires HeadersNameDates(future)
    ensures Grows(Placed(d, future, m), Placed(d, future, n))
  {
    if n == m {
      GrowsRefl(Placed(d, future, m));
    } else {
      PlacedGrows(d, future, m, n - 1);
      var prev := Placed(d, future, n - 1);
      var date := future.keys[n - 1];
      FutureStepGrows(prev, date, future.vals[date]);
      GrowsTrans(Placed(d, future, m), prev, Placed(d, future, n));
    }
  }

  /** Some section body of `d` contains `c`. */
  predicate Holds(d: Dict<string>, c: string) {
    exists k :: k in d.keys && k in d.vals && Contains(d.vals[k], c)
  }

  /** Text inside a section body stays inside it as the note grows. */
  lemma GrowsKeeps(d: Dict<string>, e: Dict<string>, t: int, c: string)
    requires Valid(d) && Valid(e) && Grows(d, e)
    requires 0 <= t < |d.keys| && Contains(d.vals[d.keys[t]], c)
    ensures t < |e.keys| && e.keys[t] == d.keys[t] && Contains(e.vals[e.keys[t]], c)
  {
    assert e.keys[t] == e.keys[..|d.keys|][t];
    ContainsPrefix(d.vals[d.keys[t]], e.vals[d.keys[t]], c);
  }

  /** A placing step keeps what a section body already contains. */
  lemma StepKeeps(d: Dict<string>, date: string, info: FutureInfo, t: int, c: string)
    requires Valid(d) && Contains(info.header, date)
    requires 0 <= t < |d.keys| && Contains(d.vals[d.keys[t]], c)
    ensures var r := FutureStep(d, date, info); t < |r.keys| && Contains(r.vals[r.keys[t]], c)
  {
    FutureStepGrows(d, date, info);
    GrowsKeeps(d, FutureStep(d, date, info), t, c);
  }

  /** A placing step puts the date's blocks in some section body. */
  lemma StepPlaces(d: Dict<string>, date: string, info: FutureInfo) returns (t: int)
    requires Valid(d)
    ensures var r := FutureStep(d, date, info);
      0 <= t < |r.keys| && Contains(r.vals[r.keys[t]], TaskContent(info.tasks))
  {
    FutureStepPlaces(d, date, info);
    var r := FutureStep(d, date, info);
    var k :| k in r.keys && k in r.vals && Contains(r.vals[k], TaskContent(info.tasks));
    t :| 0 <= t < |r.keys| && r.keys[t] == k;
  }

  /** Section `t` of `r` exists and its body contains `c`. */
  predicate HoldsAt(r: Dict<string>, t: int, c: string) {
    0 <= t < |r.keys| && r.keys[t] in r.vals && Contains(r.vals[r.keys[t]], c)
  }

  /** Placing date `j` puts its blocks in some section `t`. */
  lemma PlacedStepPlaces(d: Dict<string>, future: Dict<FutureInfo>, j: int) returns (t: int)
    requires Valid(d) && Valid(future) && 0 <= j < |future.keys|
    ensures HoldsAt(Placed(d, future, j + 1), t, TaskContent(future.vals[future.keys[j]].tasks))
  {
    var date := future.keys[j];
    t := StepPlaces(Placed(d, future, j), date, future.vals[date]);
  }

  /** Placing future blocks only appends to the note, and no date's blocks
      are lost: each is the end of, or inside, some section body. */
  lemma PlacedSpec(d: Dict<string>, future: Dict<FutureInfo>, n: int)
    requires Valid(d) && Valid(future) && 0 <= n <= |future.keys|
    requires HeadersNameDates(future)
    ensures Grows(d, Placed(d, future, n))
    ensures forall j :: 0 <= j < n ==> Holds(Placed(d, future, n), TaskContent(future.vals[future.keys[j]].tasks))
  {
    PlacedGrows(d, future, 0, n);
    var r := Placed(d, future, n);
    forall j | 0 <= j < n
      ensures Holds(r, TaskContent(future.vals[future.keys[j]].tasks))
    {
      var t := PlacedStepPlaces(d, future, j);
      PlacedGrows(d, future, j + 1, n);
      GrowsKeeps(Placed(d, future, j + 1), r, t, TaskContent(future.vals[future.keys[j]].tasks));
      assert r.keys[t] in r.keys;
    }
  }

  /** Every header `extract_future_tasks` records, `Word (DD/MM)`, names its
      date. */
  lemma FutureTasksNameDates(sections: Dict<string>, today: Date)
    requires Valid(sections) && ValidDate(today)
    ensures HeadersNameDates(FromPairs(FuturePairs(sections, today, |sections.keys|)))
  {
    var ps := FuturePairs(sections, today, |sections.keys|);
    var future := FromPairs(ps);
    FromPairsSpec(ps);
    FuturePairsShape(sections, today, |sections.keys|);
    forall dt | dt in future.vals ensures Contains(future.vals[dt].header, dt) {
      assert Get(future, dt) == LastValue(ps, dt);
      LastValueIn(ps, dt);
      var v := future.vals[dt];
      assert (dt, v) in ps;
      var w := ExtractDayDate("### " + v.header).value.0;
      assert v.header == w + " (" + dt + ")";
      ContainsSuffix(w + " (", dt);
      ContainsExtend(w + " (" + dt, ")", dt);
    }
  }

  /** `update_note_with_tasks` given what `extract_future_tasks` returns:
      placing the future blocks only appends to the note, and every date's
      blocks end up inside some section body. */
  lemma ExtractedFuturePlaced(sections: Dict<string>, today: Date, d: Dict<string>)
    requires Valid(sections) && ValidDate(today) && Valid(d)
    ensures var future := FromPairs(FuturePairs(sections, today, |sections.keys|));
      var r := Placed(d, future, |future.keys|);
      Grows(d, r) &&
      forall j :: 0 <= j < |future.keys| ==> Holds(r, TaskContent(future.vals[future.keys[j]].tasks))
  {
    var future := FromPairs(FuturePairs(sections, today, |sections.keys|));
    FutureTasksNameDates(sections, today);
    PlacedSpec(d, future, |future.keys|);
  }
}
