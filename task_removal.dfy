/** `remove_tasks_from_note` of `modules/task_processor.py`: once the tasks
    have been carried to the new note, the old note loses every future day
    section and, in the other sections, every line of a carried task. */
module TaskRemoval {
  import opened Text
  import opened Dict
  import opened Dates
  import opened DayNotes
  import opened TaskBlocks
  import opened TaskSelection
  import opened NoteRender

  // ---------------------------------------------------------------------
  // The removal set and the future sections
  // ---------------------------------------------------------------------

  /** The stripped lines of one block. */
  function LineTexts(b: seq<string>): set<string> {
    set l | l in b :: Strip(l)
  }

  /** The stripped lines of the blocks `bs`. */
  function BlocksTexts(bs: seq<seq<string>>): set<string> {
    set b, l | b in bs && l in b :: Strip(l)
  }

  /** The stripped lines of the blocks filed under the dates `ds`. */
  function FutureTexts(future: Dict<FutureInfo>, ds: seq<string>): set<string> {
    set d, b, l | d in ds && d in future.vals && b in future.vals[d].tasks && l in b :: Strip(l)
  }

  /** `task_texts`: every stripped line of a pending block or of a block of
      some future date. */
  function RemovalTexts(pending: seq<seq<string>>, future: Dict<FutureInfo>): set<string> {
    BlocksTexts(pending) + FutureTexts(future, future.keys)
  }

  /** `future_day_sections`: for each date, the first section header that
      contains it, if any. */
  function FutureHeaders(keys: seq<string>, ds: seq<string>): set<string> {
    set d | d in ds && FirstWith(keys, d) >= 0 :: keys[FirstWith(keys, d)]
  }

  /** Adds the stripped lines of one block to `texts`. */
  method AddLineTexts(texts: set<string>, b: seq<string>) returns (r: set<string>)
    ensures r == texts + LineTexts(b)
  {
    r := texts;
    for j := 0 to |b|
      invariant r == texts + LineTexts(b[..j])
    {
      assert LineTexts(b[..j + 1]) == LineTexts(b[..j]) + {Strip(b[j])} by {
        assert b[..j + 1] == b[..j] + [b[j]];
      }
      r := r + {Strip(b[j])};
    }
    assert b[..|b|] == b;
  }

  /** Adds the stripped lines of every block of `bs` to `texts`. */
  method AddBlockTexts(texts: set<string>, bs: seq<seq<string>>) returns (r: set<string>)
    ensures r == texts + BlocksTexts(bs)
  {
    r := texts;
    for i := 0 to |bs|
      invariant r == texts + BlocksTexts(bs[..i])
    {
      assert BlocksTexts(bs[..i + 1]) == BlocksTexts(bs[..i]) + LineTexts(bs[i]) by {
        assert bs[..i + 1] == bs[..i] + [bs[i]];
      }
      r := AddLineTexts(r, bs[i]);
    }
    assert bs[..|bs|] == bs;
  }

  lemma FutureTextsSnoc(future: Dict<FutureInfo>, ds: seq<string>, d: string)
    requires d in future.vals
    ensures FutureTexts(future, ds + [d]) == FutureTexts(future, ds) + BlocksTexts(future.vals[d].tasks)
  {
    var a, b := FutureTexts(future, ds + [d]), FutureTexts(future, ds) + BlocksTexts(future.vals[d].tasks);
    forall x | x in a ensures x in b {
      var d', bl, l :| d' in ds + [d] && d' in future.vals && bl in future.vals[d'].tasks && l in bl && x == Strip(l);
      if d' != d {
        assert d' in ds;
      }
    }
  }

  lemma FutureHeadersSnoc(keys: seq<string>, ds: seq<string>, d: string)
    ensures FutureHeaders(keys, ds + [d]) ==
      FutureHeaders(keys, ds) + if FirstWith(keys, d) >= 0 then {keys[FirstWith(keys, d)]} else {}
  {
    var a := FutureHeaders(keys, ds + [d]);
    forall x | x in a ensures x in FutureHeaders(keys, ds) || (FirstWith(keys, d) >= 0 && x == keys[FirstWith(keys, d)]) {
      var d' :| d' in ds + [d] && FirstWith(keys, d') >= 0 && x == keys[FirstWith(keys, d')];
      if d' != d {
        assert d' in ds;
      }
    }
  }

  /** The two loops that build `task_texts` and `future_day_sections`. */
  method CollectRemoval(pending: seq<seq<string>>, future: Dict<FutureInfo>, keys: seq<string>)
    returns (texts: set<string>, headers: set<string>)
    requires Valid(future)
    ensures texts == RemovalTexts(pending, future)
    ensures headers == FutureHeaders(keys, future.keys)
  {
    texts := AddBlockTexts({}, pending);
    headers := {};
    for i := 0 to |future.keys|
      invariant texts == BlocksTexts(pending) + FutureTexts(future, future.keys[..i])
      invariant headers == FutureHeaders(keys, future.keys[..i])
    {
      var date := future.keys[i];
      assert future.keys[..i + 1] == future.keys[..i] + [date];
      FutureTextsSnoc(future, future.keys[..i], date);
      FutureHeadersSnoc(keys, future.keys[..i], date);
      var j := FindSection(keys, date);
      if j >= 0 {
        headers := headers + {keys[j]};
      }
      var more := AddBlockTexts({}, future.vals[date].tasks);
      texts := texts + more;
    }
    assert future.keys[..|future.keys|] == future.keys;
  }

  // ---------------------------------------------------------------------
  // Removing task lines from one section
  // ---------------------------------------------------------------------

  /** The lines from `i` on that survive, line by line: a line goes when its
      stripped text is in `texts`, or when it is an indented line right after
      a line that went (`prev`); every other line stays. */
  function Survive(lines: seq<string>, texts: set<string>, i: int, prev: bool): seq<string>
    requires 0 <= i <= |lines|
    decreases |lines| - i
  {
    if i == |lines| then []
    else
      var drop := Strip(lines[i]) in texts || (prev && IsContinuation(lines[i]));
      (if drop then [] else [lines[i]]) + Survive(lines, texts, i + 1, drop)
  }

  /** The lines of a section that survive the removal. */
  function KeptLines(lines: seq<string>, texts: set<string>): seq<string> {
    Survive(lines, texts, 0, false)
  }

  /** The inner loop of the removal: `next` is the first line at or after
      `start` that is not an indented subtask line. */
  method SkipSubtasks(lines: seq<string>, start: int) returns (next: int)
    requires 0 <= start <= |lines|
    ensures next == start + RunFrom(lines, start)
  {
    next := start;
    while next < |lines|
      invariant start <= next <= |lines|
      invariant forall k :: start <= k < next ==> IsContinuation(lines[k])
    {
      var stripped := Strip(lines[next]);
      ContinuationTest(lines[next]);
      if StartsWith(lines[next], "    ") || StartsWith(stripped, "  - ") || StartsWith(stripped, "    * ") {
        next := next + 1;
      } else {
        break;
      }
    }
    RunFromExact(lines, start, next - start);
  }

  /** After a line that went, its run of indented lines goes too, and the
      rule starts afresh after the run. */
  lemma {:induction false} SurviveRun(lines: seq<string>, texts: set<string>, i: int)
    requires 0 <= i <= |lines|
    ensures Survive(lines, texts, i, true) == Survive(lines, texts, i + RunFrom(lines, i), false)
    decreases |lines| - i
  {
    if i < |lines| && IsContinuation(lines[i]) {
      SurviveRun(lines, texts, i + 1);
    }
  }

  /** A turn of the rule at a line that does not follow a dropped one. */
  lemma SurviveFirst(lines: seq<string>, texts: set<string>, i: int)
    requires 0 <= i < |lines|
    ensures Survive(lines, texts, i, false) ==
      if Strip(lines[i]) in texts then Survive(lines, texts, i + 1, true)
      else [lines[i]] + Survive(lines, texts, i + 1, false)
  {
  }

  /** The `while i < len(lines)` loop: a line whose stripped text is in the
      removal set is skipped together with the indented lines after it. */
  method RemoveLines(lines: seq<string>, texts: set<string>) returns (kept: seq<string>)
    ensures kept == KeptLines(lines, texts)
  {
    kept := [];
    var i := 0;
    while i < |lines|
      invariant 0 <= i <= |lines|
      invariant kept + Survive(lines, texts, i, false) == KeptLines(lines, texts)
      decreases |lines| - i
    {
      var line := Strip(lines[i]);
      SurviveFirst(lines, texts, i);
      if line in texts {
        SurviveRun(lines, texts, i + 1);
        i := SkipSubtasks(lines, i + 1);
      } else {
        assert kept + [lines[i]] + Survive(lines, texts, i + 1, false) == kept + ([lines[i]] + Survive(lines, texts, i + 1, false));
        kept := kept + [lines[i]];
        i := i + 1;
      }
    }
  }

  /** No line that survives has its stripped text in the removal set. */
  lemma {:induction false} SurviveNoText(lines: seq<string>, texts: set<string>, i: int, prev: bool)
    requires 0 <= i <= |lines|
    ensures forall l :: l in Survive(lines, texts, i, prev) ==> Strip(l) !in texts
    decreases |lines| - i
  {
    if i < |lines| {
      var drop := Strip(lines[i]) in texts || (prev && IsContinuation(lines[i]));
      SurviveNoText(lines, texts, i + 1, drop);
    }
  }

  /** The surviving lines are the section's lines with some left out, the
      rest in their order. */
  lemma {:induction false} SurviveSubseq(lines: seq<string>, texts: set<string>, i: int, prev: bool)
    requires 0 <= i <= |lines|
    ensures Subseq(Survive(lines, texts, i, prev), lines[i..])
    decreases |lines| - i
  {
    if i < |lines| {
      var drop := Strip(lines[i]) in texts || (prev && IsContinuation(lines[i]));
      SurviveSubseq(lines, texts, i + 1, drop);
      var b, s := lines[i..], Survive(lines, texts, i + 1, drop);
      assert b[1..] == lines[i + 1..] && b[0] == lines[i];
      if drop {
        assert Survive(lines, texts, i, prev) == s;
      } else {
        var a := [lines[i]] + s;
        assert Survive(lines, texts, i, prev) == a;
        assert a[1..] == s;
      }
    }
  }

  /** With nothing to remove, every line stays. */
  lemma {:induction false} SurviveNothing(lines: seq<string>, i: int)
    requires 0 <= i <= |lines|
    ensures Survive(lines, {}, i, false) == lines[i..]
    decreases |lines| - i
  {
    if i < |lines| {
      SurviveNothing(lines, i + 1);
      assert lines[i..] == [lines[i]] + lines[i + 1..];
    }
  }

  /** What the removal promises about one section's lines. */
  lemma KeptLinesSpec(lines: seq<string>, texts: set<string>)
    ensures Subseq(KeptLines(lines, texts), lines)
    ensures forall l :: l in KeptLines(lines, texts) ==> Strip(l) !in texts
    ensures texts == {} ==> KeptLines(lines, texts) == lines
  {
    SurviveSubseq(lines, texts, 0, false);
    SurviveNoText(lines, texts, 0, false);
    assert lines[0..] == lines;
    if texts == {} {
      SurviveNothing(lines, 0);
    }
  }

  // ---------------------------------------------------------------------
  // The section loop
  // ---------------------------------------------------------------------

  /** A section goes whole when it is the section of some future date or its
      header is itself a future date. */
  predicate Drop(k: string, headers: set<string>, today: Date)
    requires ValidDate(today)
  {
    k in headers || IsFutureDate(k, today)
  }

  /** A kept section's new body; an empty body is left alone. */
  function CleanBody(body: string, texts: set<string>): string {
    if body == "" then body else Join(KeptLines(SplitLines(body), texts))
  }

  /** The headers of the sections that go. */
  function DropSet(d0: Dict<string>, headers: set<string>, today: Date): set<string>
    requires ValidDate(today)
  {
    set k | k in d0.keys && Drop(k, headers, today)
  }

  /** The new bodies of the kept sections whose body is not empty. */
  function NewBodies(d0: Dict<string>, texts: set<string>, headers: set<string>, today: Date): map<string, string>
    requires Valid(d0) && ValidDate(today)
  {
    map k | k in d0.keys && !Drop(k, headers, today) && d0.vals[k] != "" :: CleanBody(d0.vals[k], texts)
  }

  /** `for day_header, day_content in list(day_sections.items())`: drop a
      future section, leave an empty body alone, clean any other body. */
  method CleanSections(sections: Dict<string>, texts: set<string>, headers: set<string>, today: Date)
    returns (r: Dict<string>)
    requires Valid(sections) && ValidDate(today)
    ensures r == Sweep(sections, DropSet(sections, headers, today), NewBodies(sections, texts, headers, today))
  {
    ghost var drop, upd := DropSet(sections, headers, today), NewBodies(sections, texts, headers, today);
    SweepStart(sections, drop, upd);
    r := sections;
    var items := sections.keys;
    for i := 0 to |items|
      invariant r == SweepPartial(sections, drop, upd, i)
    {
      SweepTurn(sections, drop, upd, i);
      var k := items[i];
      var body := sections.vals[k];
      if k in headers || IsFutureDate(k, today) {
        r := Delete(r, k);
      } else if body != "" {
        var kept := RemoveLines(SplitLines(body), texts);
        r := Put(r, k, Join(kept));
      }
    }
  }

  /** The loop keeps exactly the sections that are not dropped, in their
      order, each with its cleaned body. */
  lemma CleanedSpec(d0: Dict<string>, texts: set<string>, headers: set<string>, today: Date)
    requires Valid(d0) && ValidDate(today)
    ensures var r := Sweep(d0, DropSet(d0, headers, today), NewBodies(d0, texts, headers, today));
      Valid(r) &&
      (forall k :: k in r.keys <==> k in d0.keys && !Drop(k, headers, today)) &&
      Subseq(r.keys, d0.keys) &&
      forall k :: k in r.keys ==> r.vals[k] == CleanBody(d0.vals[k], texts)
  {
    var drop, upd := DropSet(d0, headers, today), NewBodies(d0, texts, headers, today);
    SweepSpec(d0, drop, upd);
    KeptSubseq(d0.keys, drop);
  }

  lemma {:induction false} KeptSubseq(ks: seq<string>, drop: set<string>)
    ensures Subseq(Kept(ks, drop), ks)
  {
    if ks != [] {
      var init, k := ks[..|ks| - 1], ks[|ks| - 1];
      KeptSubseq(init, drop);
      assert ks == init + [k];
      KeptSnoc(init, k, drop);
      if k in drop {
        assert Subseq([], [k]);
        SubseqAppend(Kept(init, drop), init, [], [k]);
        assert Kept(init, drop) + [] == Kept(init, drop);
      } else {
        SubseqRefl([k]);
        SubseqAppend(Kept(init, drop), init, [k], [k]);
      }
    }
  }

  // ---------------------------------------------------------------------
  // The whole function
  // ---------------------------------------------------------------------

  /** The rewritten old note: the preamble, then every kept section with its
      cleaned and stripped body. */
  function RemovedNote(content: string, pending: seq<seq<string>>, future: Dict<FutureInfo>, today: Date): string
    requires ValidDate(today)
  {
    var lines := Split(content);
    var d := FromPairs(Matches(lines, |lines|));
    var headers := FutureHeaders(d.keys, future.keys);
    var texts := RemovalTexts(pending, future);
    CleanedSpec(d, texts, headers, today);
    RenderNote(Preamble(lines), Sweep(d, DropSet(d, headers, today), NewBodies(d, texts, headers, today)), true)
  }

  method RemoveTasksFromNote(content: string, pending: seq<seq<string>>, future: Dict<FutureInfo>, today: Date)
    returns (out: string)
    requires Valid(future) && ValidDate(today)
    ensures out == RemovedNote(content, pending, future, today)
  {
    var header, sections := ParseDaySections(content);
    var texts, headers := CollectRemoval(pending, future, sections.keys);
    var cleaned := CleanSections(sections, texts, headers, today);
    CleanedSpec(sections, texts, headers, today);
    out := Rebuild(header, cleaned, true);
  }
}
