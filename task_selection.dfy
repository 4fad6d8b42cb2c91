/** Choosing the tasks that move to the new week (`modules/task_processor.py`):
    the incomplete blocks of past and present days, and the blocks of future
    days keyed by their date. */
module TaskSelection {
  import opened Text
  import opened Dict
  import opened Dates
  import opened DayNotes
  import opened TaskBlocks

  /** A block whose parent line contains `- [x]` is done. */
  predicate IsDone(b: seq<string>) {
    b != [] && Contains(b[0], "- [x]")
  }

  /** The blocks of `bs` that are not done, in order. */
  function Incomplete(bs: seq<seq<string>>): (r: seq<seq<string>>)
    ensures |r| <= |bs|
  {
    if bs == [] then []
    else
      var init, b := bs[..|bs| - 1], bs[|bs| - 1];
      Incomplete(init) + (if IsDone(b) then [] else [b])
  }

  /** A block is kept exactly when it is one of `bs` and is not done. */
  lemma {:induction false} IncompleteSpec(bs: seq<seq<string>>, b: seq<string>)
    ensures b in Incomplete(bs) <==> b in bs && !IsDone(b)
  {
    if bs != [] {
      var init, last := bs[..|bs| - 1], bs[|bs| - 1];
      assert bs == init + [last];
      IncompleteSpec(init, b);
    }
  }

  /** Filtering keeps the order of the blocks: it distributes over `+`. */
  lemma {:induction false} IncompleteAppend(a: seq<seq<string>>, b: seq<seq<string>>)
    ensures Incomplete(a + b) == Incomplete(a) + Incomplete(b)
    decreases |b|
  {
    if b == [] {
      assert a + b == a;
    } else {
      var b0 := b[..|b| - 1];
      assert (a + b)[..|a + b| - 1] == a + b0;
      IncompleteAppend(a, b0);
    }
  }

  /** The task blocks of a section body. */
  function SectionBlocks(body: string): seq<seq<string>> {
    Blocks(SplitLines(body))
  }

  /** The lists of `ls`, one after the other. */
  function Flatten(ls: seq<seq<seq<string>>>): seq<seq<string>> {
    if ls == [] then [] else Flatten(ls[..|ls| - 1]) + ls[|ls| - 1]
  }

  lemma {:induction false} FlattenIn(ls: seq<seq<seq<string>>>, b: seq<string>)
    ensures b in Flatten(ls) <==> exists k :: 0 <= k < |ls| && b in ls[k]
  {
    if ls != [] {
      var init := ls[..|ls| - 1];
      FlattenIn(init, b);
      if exists k :: 0 <= k < |ls| && b in ls[k] {
        var k :| 0 <= k < |ls| && b in ls[k];
        if k < |ls| - 1 { assert ls[k] == init[k]; }
      }
      if exists k :: 0 <= k < |init| && b in init[k] {
        var k :| 0 <= k < |init| && b in init[k];
        assert ls[k] == init[k];
      }
    }
  }

  /** The blocks `extract_pending_tasks` looks at in each of the first `n`
      sections: none for a future day. */
  function DayBlocks(d: Dict<string>, today: Date, n: int): (r: seq<seq<seq<string>>>)
    requires Valid(d) && ValidDate(today) && 0 <= n <= |d.keys|
    ensures |r| == n
  {
    if n == 0 then []
    else
      var key := d.keys[n - 1];
      DayBlocks(d, today, n - 1) + [DayList(key, d.vals[key], today)]
  }

  /** The blocks `extract_pending_tasks` reads from one section. */
  function DayList(key: string, body: string, today: Date): seq<seq<string>>
    requires ValidDate(today)
  {
    if IsFutureDate(key, today) then [] else SectionBlocks(body)
  }

  lemma {:induction false} DayBlocksAt(d: Dict<string>, today: Date, n: int, k: int)
    requires Valid(d) && ValidDate(today) && 0 <= k < n <= |d.keys|
    ensures DayBlocks(d, today, n)[k] == DayList(d.keys[k], d.vals[d.keys[k]], today)
  {
    if k < n - 1 {
      DayBlocksAt(d, today, n - 1, k);
    }
  }

  lemma DayBlocksStep(d: Dict<string>, today: Date, i: int)
    requires Valid(d) && ValidDate(today) && 0 <= i < |d.keys|
    ensures Flatten(DayBlocks(d, today, i + 1)) ==
      Flatten(DayBlocks(d, today, i)) + DayList(d.keys[i], d.vals[d.keys[i]], today)
  {
    var before := DayBlocks(d, today, i);
    var here := DayList(d.keys[i], d.vals[d.keys[i]], today);
    assert DayBlocks(d, today, i + 1) == before + [here];
    assert (before + [here])[..i] == before;
  }

  /** `extract_pending_tasks`, with today's date as a parameter. */
  method ExtractPendingTasks(sections: Dict<string>, today: Date) returns (pending: seq<seq<string>>)
    requires Valid(sections) && ValidDate(today)
    ensures pending == Incomplete(Flatten(DayBlocks(sections, today, |sections.keys|)))
  {
    pending := [];
    var i := 0;
    while i < |sections.keys|
      invariant 0 <= i <= |sections.keys|
      invariant pending == Incomplete(Flatten(DayBlocks(sections, today, i)))
    {
      pending := AddPending(sections, today, i, pending);
      i := i + 1;
    }
  }

  /** The body of the loop of `extract_pending_tasks` for section `i`: the
      incomplete blocks of the section, unless its header is a future date. */
  method AddPending(sections: Dict<string>, today: Date, i: int, pending: seq<seq<string>>) returns (r: seq<seq<string>>)
    requires Valid(sections) && ValidDate(today) && 0 <= i < |sections.keys|
    requires pending == Incomplete(Flatten(DayBlocks(sections, today, i)))
    ensures r == Incomplete(Flatten(DayBlocks(sections, today, i + 1)))
  {
    var header := sections.keys[i];
    var content := sections.vals[header];
    var kept := [];
    if !IsFutureDate(header, today) {
      var blocks := ExtractTaskBlocks(content);
      kept := KeepIncomplete(blocks);
    }
    DayBlocksStep(sections, today, i);
    IncompleteAppend(Flatten(DayBlocks(sections, today, i)), DayList(header, content, today));
    r := pending + kept;
  }

  /** The inner loop of `extract_pending_tasks`. */
  method KeepIncomplete(blocks: seq<seq<string>>) returns (kept: seq<seq<string>>)
    requires forall k :: 0 <= k < |blocks| ==> |blocks[k]| >= 1
    ensures kept == Incomplete(blocks)
  {
    kept := [];
    var j := 0;
    while j < |blocks|
      invariant 0 <= j <= |blocks|
      invariant kept == Incomplete(blocks[..j])
    {
      var b := blocks[j];
      assert blocks[..j + 1] == blocks[..j] + [b];
      if !Contains(b[0], "- [x]") {
        kept := kept + [b];
      }
      j := j + 1;
    }
    assert blocks[..j] == blocks;
  }

  /** A block that `extract_pending_tasks` returns comes from a section
      whose header is not a future date, and is not done. */
  lemma PendingSound(d: Dict<string>, today: Date, b: seq<string>)
    requires Valid(d) && ValidDate(today)
    requires b in Incomplete(Flatten(DayBlocks(d, today, |d.keys|)))
    ensures !IsDone(b)
    ensures exists k :: 0 <= k < |d.keys| && !IsFutureDate(d.keys[k], today) && b in SectionBlocks(d.vals[d.keys[k]])
  {
    var ls := DayBlocks(d, today, |d.keys|);
    IncompleteSpec(Flatten(ls), b);
    FlattenIn(ls, b);
    var k :| 0 <= k < |ls| && b in ls[k];
    DayBlocksAt(d, today, |d.keys|, k);
  }

  /** Every block of a section whose header is not a future date is
      returned, unless it is done. */
  lemma PendingComplete(d: Dict<string>, today: Date, k: int, b: seq<string>)
    requires Valid(d) && ValidDate(today) && 0 <= k < |d.keys|
    requires !IsFutureDate(d.keys[k], today) && b in SectionBlocks(d.vals[d.keys[k]]) && !IsDone(b)
    ensures b in Incomplete(Flatten(DayBlocks(d, today, |d.keys|)))
  {
    var ls := DayBlocks(d, today, |d.keys|);
    DayBlocksAt(d, today, |d.keys|, k);
    FlattenIn(ls, b);
    IncompleteSpec(Flatten(ls), b);
  }

  /** A block is pending exactly when it is a block of a section whose
      header is not a future date and its parent line is not done. */
  lemma PendingSpec(d: Dict<string>, today: Date, b: seq<string>)
    requires Valid(d) && ValidDate(today)
    ensures b in Incomplete(Flatten(DayBlocks(d, today, |d.keys|))) <==>
      !IsDone(b) &&
      exists k :: 0 <= k < |d.keys| && !IsFutureDate(d.keys[k], today) && b in SectionBlocks(d.vals[d.keys[k]])
  {
    if b in Incomplete(Flatten(DayBlocks(d, today, |d.keys|))) {
      PendingSound(d, today, b);
    }
    if !IsDone(b) && exists k :: 0 <= k < |d.keys| && !IsFutureDate(d.keys[k], today) && b in SectionBlocks(d.vals[d.keys[k]]) {
      var k :| 0 <= k < |d.keys| && !IsFutureDate(d.keys[k], today) && b in SectionBlocks(d.vals[d.keys[k]]);
      PendingComplete(d, today, k, b);
    }
  }

  /** What `extract_future_tasks` stores under a date. */
  datatype FutureInfo = FutureInfo(header: string, tasks: seq<seq<string>>)

  /** The entry a section contributes to the future tasks: a future day
      with a `### Word (DD/MM)` header and at least one block gives its
      date, the header without `### `, and its blocks. */
  function FutureEntry(key: string, body: string, today: Date): Option<(string, FutureInfo)>
    requires ValidDate(today)
  {
    if !IsFutureDate(key, today) then None
    else match ExtractDayDate(key)
      case None => None
      case Some((weekday, date)) =>
        var bs := SectionBlocks(body);
        if bs == [] then None else Some((date, FutureInfo(weekday + " (" + date + ")", bs)))
  }

  /** What each of the first `n` sections of `d` contributes. */
  function FutureEntries(d: Dict<string>, today: Date, n: int): (r: seq<Option<(string, FutureInfo)>>)
    requires Valid(d) && ValidDate(today) && 0 <= n <= |d.keys|
    ensures |r| == n
  {
    if n == 0 then []
    else
      var key := d.keys[n - 1];
      FutureEntries(d, today, n - 1) + [FutureEntry(key, d.vals[key], today)]
  }

  lemma {:induction false} FutureEntriesAt(d: Dict<string>, today: Date, n: int, k: int)
    requires Valid(d) && ValidDate(today) && 0 <= k < n <= |d.keys|
    ensures FutureEntries(d, today, n)[k] == FutureEntry(d.keys[k], d.vals[d.keys[k]], today)
  {
    if k < n - 1 {
      FutureEntriesAt(d, today, n - 1, k);
    }
  }

  /** The values present in `os`, in order. */
  function Somes<T>(os: seq<Option<T>>): seq<T> {
    if os == [] then []
    else Somes(os[..|os| - 1]) + match os[|os| - 1] case None => [] case Some(x) => [x]
  }

  lemma {:induction false} SomesIn<T>(os: seq<Option<T>>, x: T)
    ensures x in Somes(os) <==> exists k :: 0 <= k < |os| && os[k] == Some(x)
  {
    if os != [] {
      var init := os[..|os| - 1];
      SomesIn(init, x);
      if exists k :: 0 <= k < |os| && os[k] == Some(x) {
        var k :| 0 <= k < |os| && os[k] == Some(x);
        if k < |os| - 1 { assert init[k] == os[k]; }
      }
      if exists k :: 0 <= k < |init| && init[k] == Some(x) {
        var k :| 0 <= k < |init| && init[k] == Some(x);
        assert os[k] == init[k];
      }
    }
  }

  /** The entries of the first `n` sections of `d`, in order. */
  function FuturePairs(d: Dict<string>, today: Date, n: int): seq<(string, FutureInfo)>
    requires Valid(d) && ValidDate(today) && 0 <= n <= |d.keys|
  {
    Somes(FutureEntries(d, today, n))
  }

  function OptionList<T>(o: Option<T>): seq<T> {
    match o case None => [] case Some(x) => [x]
  }

  lemma FuturePairsStep(d: Dict<string>, today: Date, i: int)
    requires Valid(d) && ValidDate(today) && 0 <= i < |d.keys|
    ensures FuturePairs(d, today, i + 1) == FuturePairs(d, today, i) + OptionList(FutureEntry(d.keys[i], d.vals[d.keys[i]], today))
  {
    var es := FutureEntries(d, today, i);
    var e := FutureEntry(d.keys[i], d.vals[d.keys[i]], today);
    assert FutureEntries(d, today, i + 1) == es + [e];
    assert (es + [e])[..i] == es;
  }

  /** `extract_future_tasks`, with today's date as a parameter. */
  method ExtractFutureTasks(sections: Dict<string>, today: Date) returns (future: Dict<FutureInfo>)
    requires Valid(sections) && ValidDate(today)
    ensures future == FromPairs(FuturePairs(sections, today, |sections.keys|))
  {
    future := Empty();
    var i := 0;
    while i < |sections.keys|
      invariant 0 <= i <= |sections.keys|
      invariant future == FromPairs(FuturePairs(sections, today, i))
    {
      future := AddFuture(sections, today, i, future);
      i := i + 1;
    }
  }

  /** The body of the loop of `extract_future_tasks` for section `i`. */
  method AddFuture(sections: Dict<string>, today: Date, i: int, future: Dict<FutureInfo>) returns (r: Dict<FutureInfo>)
    requires Valid(sections) && ValidDate(today) && 0 <= i < |sections.keys|
    requires future == FromPairs(FuturePairs(sections, today, i))
    ensures r == FromPairs(FuturePairs(sections, today, i + 1))
  {
    var header := sections.keys[i];
    var e := FutureSection(header, sections.vals[header], today);
    FuturePairsStep(sections, today, i);
    if e.Some? {
      FromPairsSnoc(FuturePairs(sections, today, i), e.value);
      r := Put(future, e.value.0, e.value.1);
    } else {
      assert FuturePairs(sections, today, i) + [] == FuturePairs(sections, today, i);
      r := future;
    }
  }

  /** One step of `extract_future_tasks`: the entry a section gives. */
  method FutureSection(header: string, content: string, today: Date) returns (e: Option<(string, FutureInfo)>)
    requires ValidDate(today)
    ensures e == FutureEntry(header, content, today)
  {
    e := None;
    if IsFutureDate(header, today) {
      var m := ExtractDayDate(header);
      if m.Some? {
        var (weekday, date) := m.value;
        var blocks := ExtractTaskBlocks(content);
        if blocks != [] {
          e := Some((date, FutureInfo(weekday + " (" + date + ")", blocks)));
        }
      }
    }
  }

  /** An entry of the future tasks: the date maps to a non-empty list of
      blocks, under a header built from the section's weekday and date. */
  predicate IsFutureItem(p: (string, FutureInfo)) {
    var m := ExtractDayDate("### " + p.1.header);
    p.1.tasks != [] && m.Some? && m.value.1 == p.0 && p.1.header == m.value.0 + " (" + p.0 + ")"
  }

  lemma FutureEntryShape(key: string, body: string, today: Date)
    requires ValidDate(today) && FutureEntry(key, body, today).Some?
    ensures IsFutureItem(FutureEntry(key, body, today).value)
  {
    var e := FutureEntry(key, body, today).value;
    var (w, date) := ExtractDayDate(key).value;
    ExtractDayDateShape(key);
    ExtractDayDateOf(w, date, "");
    assert "### " + w + " (" + date + ")" + "" == "### " + e.1.header;
  }

  /** Every entry names a day that has blocks, under a header built from
      the section's weekday and date. */
  lemma FuturePairsShape(d: Dict<string>, today: Date, n: int)
    requires Valid(d) && ValidDate(today) && 0 <= n <= |d.keys|
    ensures forall p :: p in FuturePairs(d, today, n) ==> IsFutureItem(p)
  {
    var es := FutureEntries(d, today, n);
    forall p | p in Somes(es) ensures IsFutureItem(p) {
      SomesIn(es, p);
      var k :| 0 <= k < |es| && es[k] == Some(p);
      FutureEntriesAt(d, today, n, k);
      FutureEntryShape(d.keys[k], d.vals[d.keys[k]], today);
    }
  }



  /** Future sections with blocks are exactly the dates in the result, and
      each date holds the last such section's entry. */
  lemma FutureTasksSpec(d: Dict<string>, today: Date)
    requires Valid(d) && ValidDate(today)
    ensures var ps := FuturePairs(d, today, |d.keys|);
      FromPairs(ps).keys == Dedup(Firsts(ps))
      && (forall k :: Get(FromPairs(ps), k) == LastValue(ps, k))
      && (forall dt :: dt in FromPairs(ps).vals ==> FromPairs(ps).vals[dt].tasks != [])
  {
    var ps := FuturePairs(d, today, |d.keys|);
    FromPairsSpec(ps);
    FuturePairsShape(d, today, |d.keys|);
    forall dt | dt in FromPairs(ps).vals ensures FromPairs(ps).vals[dt].tasks != [] {
      LastValueIn(ps, dt);
    }
  }

  lemma {:induction false} LastValueIn<V>(ps: seq<(string, V)>, k: string)
    requires LastValue(ps, k).Some?
    ensures (k, LastValue(ps, k).value) in ps
  {
    if ps[|ps| - 1].0 != k {
      LastValueIn(ps[..|ps| - 1], k);
    }
  }
}
