/** Task blocks of the current pipeline (`modules/task_processor.py`): a
    task line `- [...` with the indented lines under it. */
module TaskBlocks {
  import opened Text

  /** A line that opens a block: after its leading whitespace comes `- [`
      (`TaskStartTest` shows this is the test on the stripped line). */
  predicate IsTaskStart(line: string)
    decreases |line|
  {
    if line != [] && IsSpace(line[0]) then IsTaskStart(line[1..]) else StartsWith(line, "- [")
  }

  lemma {:induction false} TaskStartLStrip(line: string)
    ensures IsTaskStart(line) <==> StartsWith(LStrip(line), "- [")
    decreases |line|
  {
    if line != [] && IsSpace(line[0]) {
      TaskStartLStrip(line[1..]);
    }
  }

  lemma TaskStartTest(line: string)
    ensures StartsWith(Strip(line), "- [") <==> IsTaskStart(line)
  {
    TaskStartLStrip(line);
    StripIsRL(line);
    RStripStartsWith(LStrip(line), "- [");
  }

  /** A line that belongs to the block above it: one that starts with four
      spaces (see `ContinuationTest` for the test as the source writes it). */
  predicate IsContinuation(line: string) {
    StartsWith(line, "    ")
  }

  /** The source also accepts lines whose stripped text starts with `  - `
      or `    * `; those tests never hold, since a stripped line does not
      start with a space, so the test is exactly `IsContinuation`. */
  lemma ContinuationTest(line: string)
    ensures (StartsWith(line, "    ") || StartsWith(Strip(line), "  - ") || StartsWith(Strip(line), "    * "))
            <==> IsContinuation(line)
  {
    StripSpec(line);
    StartsWithHead(Strip(line), "  - ");
    StartsWithHead(Strip(line), "    * ");
  }

  /** The number of continuation lines from index `i` on. */
  function RunFrom(ls: seq<string>, i: int): (n: nat)
    requires 0 <= i <= |ls|
    ensures i + n <= |ls|
    decreases |ls| - i
  {
    if i < |ls| && IsContinuation(ls[i]) then 1 + RunFrom(ls, i + 1) else 0
  }

  /** `RunFrom` counts the longest run: every line in it is a continuation
      line and the line after it, if any, is not. */
  lemma {:induction false} RunFromLongest(ls: seq<string>, i: int)
    requires 0 <= i <= |ls|
    ensures forall k :: i <= k < i + RunFrom(ls, i) ==> IsContinuation(ls[k])
    ensures i + RunFrom(ls, i) < |ls| ==> !IsContinuation(ls[i + RunFrom(ls, i)])
    decreases |ls| - i
  {
    if i < |ls| && IsContinuation(ls[i]) {
      RunFromLongest(ls, i + 1);
    }
  }

  /** A run of continuation lines that stops at a non-continuation line or
      at the end is the longest such run. */
  lemma {:induction false} RunFromExact(ls: seq<string>, i: int, n: nat)
    requires 0 <= i && i + n <= |ls|
    requires forall k :: i <= k < i + n ==> IsContinuation(ls[k])
    requires i + n == |ls| || !IsContinuation(ls[i + n])
    ensures RunFrom(ls, i) == n
    decreases n
  {
    if n > 0 {
      RunFromExact(ls, i + 1, n - 1);
    }
  }

  /** The index just past the block opened by the task line at `i`. */
  function End(ls: seq<string>, i: int): (e: int)
    requires 0 <= i < |ls|
    ensures i < e <= |ls|
  {
    i + 1 + RunFrom(ls, i + 1)
  }

  /** The block opened by the task line at `i`: the line, stripped, and the
      continuation lines right after it, unstripped. */
  function Block(ls: seq<string>, i: int): (b: seq<string>)
    requires 0 <= i < |ls|
    ensures |b| == End(ls, i) - i
  {
    [Strip(ls[i])] + ls[i + 1..End(ls, i)]
  }

  /** The line indices, from `i` on, at which a block starts. A task line
      inside the run under another one does not start a block. */
  function StartsFrom(ls: seq<string>, i: int): (st: seq<int>)
    requires 0 <= i <= |ls|
    ensures forall k :: 0 <= k < |st| ==> i <= st[k] < |ls|
    decreases |ls| - i
  {
    if i == |ls| then []
    else if IsTaskStart(ls[i]) then [i] + StartsFrom(ls, i + 1 + RunFrom(ls, i + 1))
    else StartsFrom(ls, i + 1)
  }

  /** The blocks that start at the indices `st`, in order. */
  function BlocksAt(ls: seq<string>, st: seq<int>): (bs: seq<seq<string>>)
    requires forall k :: 0 <= k < |st| ==> 0 <= st[k] < |ls|
    ensures |bs| == |st|
    ensures forall k :: 0 <= k < |bs| ==> |bs[k]| >= 1
  {
    if st == [] then [] else [Block(ls, st[0])] + BlocksAt(ls, st[1..])
  }

  /** Block `k` is the block opened at `st[k]`. */
  lemma {:induction false} BlocksAtIndex(ls: seq<string>, st: seq<int>, k: int)
    requires forall j :: 0 <= j < |st| ==> 0 <= st[j] < |ls|
    requires 0 <= k < |st|
    ensures BlocksAt(ls, st)[k] == Block(ls, st[k])
  {
    if k > 0 {
      BlocksAtIndex(ls, st[1..], k - 1);
    }
  }

  /** The task blocks of the lines `ls`, in order. */
  function Blocks(ls: seq<string>): seq<seq<string>> {
    BlocksFrom(ls, 0)
  }

  /** The blocks from line `i` on, as the loop of `extract_task_blocks`
      finds them. */
  function BlocksFrom(ls: seq<string>, i: int): (bs: seq<seq<string>>)
    requires 0 <= i <= |ls|
    ensures forall k :: 0 <= k < |bs| ==> |bs[k]| >= 1
    decreases |ls| - i
  {
    if i == |ls| then []
    else if IsTaskStart(ls[i]) then [Block(ls, i)] + BlocksFrom(ls, End(ls, i))
    else BlocksFrom(ls, i + 1)
  }

  /** The blocks are those at the starting lines, in order. */
  lemma {:induction false} BlocksFromStarts(ls: seq<string>, i: int)
    requires 0 <= i <= |ls|
    ensures BlocksFrom(ls, i) == BlocksAt(ls, StartsFrom(ls, i))
    decreases |ls| - i
  {
    if i < |ls| {
      StartsStep(ls, i);
      if IsTaskStart(ls[i]) {
        BlocksFromStarts(ls, End(ls, i));
      } else {
        BlocksFromStarts(ls, i + 1);
      }
    }
  }


  /** `extract_task_blocks`: the task blocks of a note, in order. */
  method ExtractTaskBlocks(content: string) returns (blocks: seq<seq<string>>)
    ensures blocks == Blocks(SplitLines(content))
  {
    var lines := SplitLines(content);
    blocks := CollectBlocks(lines);
  }

  /** The loop of `extract_task_blocks` over the lines of the note. */
  method CollectBlocks(lines: seq<string>) returns (blocks: seq<seq<string>>)
    ensures blocks == Blocks(lines)
  {
    blocks := [];
    var i := 0;
    while i < |lines|
      invariant 0 <= i <= |lines|
      invariant blocks + BlocksFrom(lines, i) == Blocks(lines)
    {
      var found, next := NextBlock(lines, i);
      blocks := blocks + found;
      i := next;
    }
  }

  /** One pass of the loop of `extract_task_blocks` at line `i`: the block
      that starts there, if any, and the line the loop goes on from. */
  method NextBlock(lines: seq<string>, i: int) returns (found: seq<seq<string>>, next: int)
    requires 0 <= i < |lines|
    ensures i < next <= |lines|
    ensures BlocksFrom(lines, i) == found + BlocksFrom(lines, next)
  {
    var line := Strip(lines[i]);
    TaskStartTest(lines[i]);
    if StartsWith(line, "- [") {
      var block;
      block, next := ScanBlock(lines, i);
      found := [block];
    } else {
      found := [];
      next := i + 1;
    }
  }

  lemma StartsStep(ls: seq<string>, i: int)
    requires 0 <= i < |ls|
    ensures IsTaskStart(ls[i]) ==>
      BlocksAt(ls, StartsFrom(ls, i)) == [Block(ls, i)] + BlocksAt(ls, StartsFrom(ls, i + 1 + RunFrom(ls, i + 1)))
    ensures !IsTaskStart(ls[i]) ==>
      BlocksAt(ls, StartsFrom(ls, i)) == BlocksAt(ls, StartsFrom(ls, i + 1))
  {
    if IsTaskStart(ls[i]) {
      var rest := StartsFrom(ls, i + 1 + RunFrom(ls, i + 1));
      assert StartsFrom(ls, i) == [i] + rest;
      assert ([i] + rest)[1..] == rest;
    }
  }

  /** The inner loop of `extract_task_blocks`: the block of the task line at
      `start`; `next` is the first line after it. */
  method ScanBlock(lines: seq<string>, start: int) returns (block: seq<string>, next: int)
    requires 0 <= start < |lines|
    ensures next == start + 1 + RunFrom(lines, start + 1)
    ensures block == Block(lines, start)
  {
    var line := Strip(lines[start]);
    block := [line];
    next := start + 1;
    while next < |lines|
      invariant start < next <= |lines|
      invariant block == [line] + lines[start + 1..next]
      invariant forall k :: start < k < next ==> IsContinuation(lines[k])
    {
      var stripped := Strip(lines[next]);
      ContinuationTest(lines[next]);
      if StartsWith(lines[next], "    ") || StartsWith(stripped, "  - ") || StartsWith(stripped, "    * ") {
        block := block + [lines[next]];
        next := next + 1;
      } else {
        break;
      }
    }
    RunFromExact(lines, start + 1, next - start - 1);
  }

  /** A task block: a line starting `- [` and lines starting with four spaces. */
  predicate IsBlock(b: seq<string>) {
    |b| >= 1 && StartsWith(b[0], "- [") && forall k :: 1 <= k < |b| ==> StartsWith(b[k], "    ")
  }

  /** The block of a task line is a task block. */
  lemma BlockIsBlock(ls: seq<string>, i: int)
    requires 0 <= i < |ls| && IsTaskStart(ls[i])
    ensures IsBlock(Block(ls, i))
  {
    var b := Block(ls, i);
    RunFromLongest(ls, i + 1);
    TaskStartTest(ls[i]);
    assert b[0] == Strip(ls[i]);
    forall k | 1 <= k < |b| ensures StartsWith(b[k], "    ") {
      assert b[k] == ls[i + k];
    }
  }

  /** Every block starts at a task line. */
  lemma {:induction false} StartsAreTaskLines(ls: seq<string>, i: int)
    requires 0 <= i <= |ls|
    ensures forall k :: 0 <= k < |StartsFrom(ls, i)| ==> IsTaskStart(ls[StartsFrom(ls, i)[k]])
    decreases |ls| - i
  {
    if i < |ls| {
      if IsTaskStart(ls[i]) {
        StartsAreTaskLines(ls, i + 1 + RunFrom(ls, i + 1));
      } else {
        StartsAreTaskLines(ls, i + 1);
      }
    }
  }

  /** Every block starts with a task line, stripped, and its further lines
      start with four spaces. */
  lemma BlockShape(ls: seq<string>)
    ensures forall k :: 0 <= k < |Blocks(ls)| ==> IsBlock(Blocks(ls)[k])
  {
    var st := StartsFrom(ls, 0);
    BlocksFromStarts(ls, 0);
    StartsAreTaskLines(ls, 0);
    forall k | 0 <= k < |st| ensures IsBlock(Blocks(ls)[k]) {
      BlocksAtIndex(ls, st, k);
      BlockIsBlock(ls, st[k]);
    }
  }

  /** The blocks come in line order and no line is in two of them. */
  lemma {:induction false} StartsOrdered(ls: seq<string>, i: int)
    requires 0 <= i <= |ls|
    ensures forall k :: 0 < k < |StartsFrom(ls, i)| ==> End(ls, StartsFrom(ls, i)[k - 1]) <= StartsFrom(ls, i)[k]
    decreases |ls| - i
  {
    if i < |ls| {
      if IsTaskStart(ls[i]) {
        var next := i + 1 + RunFrom(ls, i + 1);
        StartsOrdered(ls, next);
        var st, rest := StartsFrom(ls, i), StartsFrom(ls, next);
        assert st == [i] + rest;
        forall k | 0 < k < |st| ensures End(ls, st[k - 1]) <= st[k] {
          if k == 1 {
            assert End(ls, i) == next <= rest[0];
          } else {
            assert st[k - 1] == rest[k - 2] && st[k] == rest[k - 1];
          }
        }
      } else {
        assert StartsFrom(ls, i) == StartsFrom(ls, i + 1);
        StartsOrdered(ls, i + 1);
      }
    }
  }

  /** Every task line lies in some block: it starts one or is a
      continuation line under one. */
  lemma {:induction false} TaskLineInBlock(ls: seq<string>, i: int, j: int)
    requires 0 <= i <= j < |ls| && IsTaskStart(ls[j])
    ensures exists k :: 0 <= k < |StartsFrom(ls, i)| && StartsFrom(ls, i)[k] <= j < End(ls, StartsFrom(ls, i)[k])
    decreases |ls| - i
  {
    var st := StartsFrom(ls, i);
    if IsTaskStart(ls[i]) {
      var next := i + 1 + RunFrom(ls, i + 1);
      assert st == [i] + StartsFrom(ls, next);
      if j < next {
        assert st[0] == i && End(ls, i) == next;
        assert 0 < |st| && st[0] <= j < End(ls, st[0]);
      } else {
        TaskLineInBlock(ls, next, j);
        var rest := StartsFrom(ls, next);
        var k :| 0 <= k < |rest| && rest[k] <= j < End(ls, rest[k]);
        assert st[k + 1] == rest[k];
      }
    } else {
      TaskLineInBlock(ls, i + 1, j);
    }
  }
}
