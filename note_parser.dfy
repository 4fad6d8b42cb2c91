/** The weekly-note cleanup of the older pipeline (the block loop of `main`
    in `core/note_parser.py`).

    The note is cut into blocks at its `### ` lines. A block whose title
    carries a `(DD/MM)` after 20 April is a future block: it leaves the note
    and is recorded with its `- [ ] ` lines. In any other block the
    `- [ ] ` lines move to the pending list and the rest stays. The rewritten
    note is the stripped preamble and the kept blocks, separated by blank
    lines. Reading and writing the files is left to the caller: the model
    takes the note's text and returns the three texts to be written. */
module NoteParser {
  import opened Text
  import opened Dict
  import opened Dates
  import opened DayNotes

  // ---------------------------------------------------------------------
  // Blocks (`re.findall(r"(?=^### .+?$)(.*?)(?=^### |\Z)", ...)`)
  // ---------------------------------------------------------------------

  /** The blocks of the lines `ls`, each with its `### ` line first: a
      `### ` line opens a block and the lines up to the next one follow;
      lines before the first one belong to no block. */
  function HeadBlocks(ls: seq<string>): seq<seq<string>> {
    if ls == [] then []
    else
      var bs, l := HeadBlocks(ls[..|ls| - 1]), ls[|ls| - 1];
      if IsHeading(l) then bs + [[l]]
      else if bs == [] then []
      else bs[..|bs| - 1] + [bs[|bs| - 1] + [l]]
  }

  /** The blocks of the note. A bare `### ` that ends the text opens no
      block (the pattern needs a character after `### `), yet still ends the
      block before it. */
  function NoteBlocks(lines: seq<string>): seq<seq<string>> {
    if lines != [] && lines[|lines| - 1] == "### " then HeadBlocks(lines[..|lines| - 1])
    else HeadBlocks(lines)
  }

  predicate NoHeading(ls: seq<string>) {
    forall i :: 0 <= i < |ls| ==> !IsHeading(ls[i])
  }

  /** Lines before the first `### ` line make no block. */
  lemma {:induction false} BlocksBeforeFirst(pre: seq<string>)
    requires NoHeading(pre)
    ensures HeadBlocks(pre) == []
  {
    if pre != [] {
      BlocksBeforeFirst(pre[..|pre| - 1]);
    }
  }

  /** A `### ` line and the lines after it up to the next `### ` line form
      one block, the last so far. */
  lemma {:induction false} BlocksSection(pre: seq<string>, h: string, body: seq<string>)
    requires IsHeading(h) && NoHeading(body)
    ensures HeadBlocks(pre + [h] + body) == HeadBlocks(pre) + [[h] + body]
    decreases |body|
  {
    if body == [] {
      assert pre + [h] + body == pre + [h];
      BlocksOpen(pre, h);
      assert [h] + body == [h];
    } else {
      var init, l := body[..|body| - 1], body[|body| - 1];
      BlocksSection(pre, h, init);
      var s := pre + [h] + init;
      assert pre + [h] + body == s + [l];
      BlocksExtend(s, l);
      var bs := HeadBlocks(s);
      assert bs[..|bs| - 1] == HeadBlocks(pre);
      assert bs[|bs| - 1] + [l] == [h] + body;
    }
  }

  /** A heading line opens a new block. */
  lemma BlocksOpen(ls: seq<string>, h: string)
    requires IsHeading(h)
    ensures HeadBlocks(ls + [h]) == HeadBlocks(ls) + [[h]]
  {
    assert (ls + [h])[..|ls|] == ls;
  }

  /** Any other line joins the last block, when there is one. */
  lemma BlocksExtend(ls: seq<string>, l: string)
    requires !IsHeading(l) && HeadBlocks(ls) != []
    ensures var bs := HeadBlocks(ls); HeadBlocks(ls + [l]) == bs[..|bs| - 1] + [bs[|bs| - 1] + [l]]
  {
    assert (ls + [l])[..|ls|] == ls;
  }

  // ---------------------------------------------------------------------
  // The fixed cutoff (`re.search(r"\((\d{2})/(\d{2})\)", title)`)
  // ---------------------------------------------------------------------

  /** `(DD/MM)` occurs in `s` at index `i`. */
  predicate ParenDateAt(s: string, i: int) {
    0 <= i && i + 7 <= |s| && s[i] == '(' && DDMMAt(s, i + 1) && s[i + 6] == ')'
  }

  /** The index of the leftmost `(DD/MM)` from `k` on, or -1. */
  function FindParenDate(s: string, k: nat): (r: int)
    requires forall i :: 0 <= i < k ==> !ParenDateAt(s, i)
    ensures r == -1 || ParenDateAt(s, r)
    ensures forall i :: 0 <= i && (r < 0 || i < r) ==> !ParenDateAt(s, i)
    decreases |s| - k
  {
    if k + 7 > |s| then -1
    else if ParenDateAt(s, k) then k
    else FindParenDate(s, k + 1)
  }

  /** The day and the month of the `(DD/MM)` at `i`. */
  function DayAt(s: string, i: int): int
    requires ParenDateAt(s, i)
  {
    ParseTwoDigits(s[i + 1..i + 3])
  }

  function MonthAt(s: string, i: int): int
    requires ParenDateAt(s, i)
  {
    ParseTwoDigits(s[i + 4..i + 6])
  }

  /** `is_future`: the first `(DD/MM)` of the title falls after 20 April,
      whatever the year and whatever today is. */
  function IsFutureTitle(title: string): bool {
    var i := FindParenDate(title, 0);
    i >= 0 && (MonthAt(title, i) > 4 || (MonthAt(title, i) == 4 && DayAt(title, i) > 20))
  }

  /** The first `(DD/MM)` decides, against the fixed date 20/04. */
  lemma IsFutureTitleSpec(title: string, i: int)
    requires ParenDateAt(title, i) && forall j :: 0 <= j < i ==> !ParenDateAt(title, j)
    ensures IsFutureTitle(title) <==> MonthAt(title, i) > 4 || (MonthAt(title, i) == 4 && DayAt(title, i) > 20)
  {
    var r := FindParenDate(title, 0);
  }

  /** A title without `(DD/MM)` is never future. */
  lemma NoDateNotFuture(title: string)
    requires forall i :: !ParenDateAt(title, i)
    ensures !IsFutureTitle(title)
  {
  }

  /** 21/04 is future and 20/04 is not, in any year. */
  lemma CutoffApril()
    ensures IsFutureTitle("### Monday (21/04)") && !IsFutureTitle("### Sunday (20/04)")
  {
    OnlyDate("### Monday (21/04)", 11);
    OnlyDate("### Sunday (20/04)", 11);
  }

  /** 31/12 is future and 01/01 is not, whatever today is. */
  lemma CutoffYear()
    ensures IsFutureTitle("### Friday (31/12)") && !IsFutureTitle("### Wednesday (01/01)")
  {
    OnlyDate("### Friday (31/12)", 11);
    OnlyDate("### Wednesday (01/01)", 14);
  }

  /** In a title whose only `(` is at `i`, the date there is the first. */
  lemma OnlyDate(title: string, i: int)
    requires 0 <= i && i + 7 == |title| && title[i] == '(' && DDMMAt(title, i + 1) && title[i + 6] == ')'
    requires forall j :: 0 <= j < i ==> title[j] != '('
    ensures IsFutureTitle(title) <==> MonthAt(title, i) > 4 || (MonthAt(title, i) == 4 && DayAt(title, i) > 20)
  {
    IsFutureTitleSpec(title, i);
  }

  // ---------------------------------------------------------------------
  // One block
  // ---------------------------------------------------------------------

  /** `re.match(r"^- \[ \] .+", line)`: an open checkbox with some text. */
  predicate TaskLine(line: string) {
    StartsWith(line, "- [ ] ") && |line| > 6
  }

  /** A ticked box or an indented line never moves. */
  lemma NeverMoved(line: string)
    requires StartsWith(line, "- [x]") || (line != [] && IsSpace(line[0]))
    ensures !TaskLine(line)
  {
    if StartsWith(line, "- [x]") {
      assert line[..5][3] == 'x';
    }
  }

  /** The task lines of a body, in order. */
  function TaskLines(body: seq<string>): seq<string> {
    if body == [] then []
    else
      var l := body[|body| - 1];
      TaskLines(body[..|body| - 1]) + (if TaskLine(l) then [l] else [])
  }

  /** The other lines of a body, in order. */
  function OtherLines(body: seq<string>): seq<string> {
    if body == [] then []
    else
      var l := body[|body| - 1];
      OtherLines(body[..|body| - 1]) + (if TaskLine(l) then [] else [l])
  }

  /** The body splits into its task lines and its other lines: each is in
      order, every line goes to exactly one of them, and the lines of each
      are the ones the test sends there. */
  lemma {:induction false} PartitionSpec(body: seq<string>)
    ensures Subseq(TaskLines(body), body) && Subseq(OtherLines(body), body)
    ensures |TaskLines(body)| + |OtherLines(body)| == |body|
    ensures forall l :: l in TaskLines(body) ==> TaskLine(l)
    ensures forall l :: l in OtherLines(body) ==> !TaskLine(l)
    ensures forall i :: 0 <= i < |body| ==> if TaskLine(body[i]) then body[i] in TaskLines(body) else body[i] in OtherLines(body)
  {
    if body != [] {
      var init, l := body[..|body| - 1], body[|body| - 1];
      PartitionSpec(init);
      assert body == init + [l];
      assert forall i :: 0 <= i < |init| ==> init[i] == body[i];
      SubseqRefl([l]);
      assert Subseq([], [l]);
      SubseqAppend(TaskLines(init), init, if TaskLine(l) then [l] else [], [l]);
      SubseqAppend(OtherLines(init), init, if TaskLine(l) then [] else [l], [l]);
    }
  }

  /** What one block contributes. */
  datatype Outcome =
    | Skip
    | Future(title: string, tasks: seq<string>)
    | Keep(text: string, moved: seq<string>)

  /** One turn of the loop over the blocks. */
  function Classify(block: seq<string>): Outcome {
    var ls := SplitLines(Strip(Join(block)));
    if ls == [] then Skip
    else
      var title, body := Strip(ls[0]), ls[1..];
      if IsFutureTitle(title) then
        var tasks := TaskLines(body);
        if tasks != [] || title != "" then Future(title, tasks) else Skip
      else Keep(Strip(Join([title] + OtherLines(body))), TaskLines(body))
  }

  /** A block with text is future exactly when its title is; a future block
      is recorded with its title and task lines and keeps no text, any
      other block keeps its title and other lines and gives up its task
      lines. */
  lemma ClassifySpec(block: seq<string>)
    requires SplitLines(Strip(Join(block))) != []
    ensures var ls := SplitLines(Strip(Join(block)));
      var title, body := Strip(ls[0]), ls[1..];
      (IsFutureTitle(title) ==> Classify(block) == Future(title, TaskLines(body))) &&
      (!IsFutureTitle(title) ==> Classify(block) == Keep(Strip(Join([title] + OtherLines(body))), TaskLines(body)))
  {
    var ls := SplitLines(Strip(Join(block)));
    var title := Strip(ls[0]);
    if IsFutureTitle(title) {
      var i := FindParenDate(title, 0);
      assert title != "" by {
        assert |title| >= i + 7;
      }
    }
  }

  // ---------------------------------------------------------------------
  // The whole note
  // ---------------------------------------------------------------------

  /** `pending_tasks`, `future_tasks` and `cleaned_content` so far. */
  datatype Sorting = Sorting(pending: seq<string>, future: seq<(string, seq<string>)>, cleaned: seq<string>)

  function Add(st: Sorting, o: Outcome): Sorting {
    match o
    case Skip => st
    case Future(t, ts) => st.(future := st.future + [(t, ts)])
    case Keep(text, moved) => Sorting(st.pending + moved, st.future, st.cleaned + [text])
  }

  /** The lists after the outcomes `os`, from `st`; each only grows. */
  function SortAll(st: Sorting, os: seq<Outcome>): (r: Sorting)
    ensures st.pending <= r.pending && st.future <= r.future && st.cleaned <= r.cleaned
  {
    if os == [] then st else Add(SortAll(st, os[..|os| - 1]), os[|os| - 1])
  }

  function Outcomes(bs: seq<seq<string>>): (os: seq<Outcome>)
    ensures |os| == |bs| && forall i :: 0 <= i < |bs| ==> os[i] == Classify(bs[i])
  {
    seq(|bs|, i requires 0 <= i < |bs| => Classify(bs[i]))
  }

  /** The three lists for the note `content`: the preamble goes first. */
  function Sorted(content: string): Sorting {
    var lines := Split(content);
    SortAll(Sorting([], [], [Preamble(lines)]), Outcomes(NoteBlocks(lines)))
  }

  /** `"\n\n".join(cleaned_content).strip() + "\n"` */
  function NoteText(cleaned: seq<string>): string {
    Strip(JoinWith(cleaned, "\n\n")) + "\n"
  }

  const PendingHeading := "### Tarefas pendentes da semana anterior"
  const FutureHeading := "### Tarefas do futuro baseado na semana anterior"

  /** What goes to the pending-tasks file. */
  function PendingText(pending: seq<string>): string {
    PendingHeading + "\n" + Join(pending) + "\n"
  }

  /** The writes for the tasks of one future block. */
  function TaskWrites(tasks: seq<string>): string {
    if tasks == [] then ""
    else TaskWrites(tasks[..|tasks| - 1]) + (tasks[|tasks| - 1] + "\n")
  }

  /** The writes for the future blocks, after the heading. */
  function FutureWrites(future: seq<(string, seq<string>)>): string {
    if future == [] then ""
    else
      var (t, ts) := future[|future| - 1];
      FutureWrites(future[..|future| - 1]) + (t + "\n\n") + TaskWrites(ts) + "\n"
  }

  /** What goes to the future-tasks file. */
  function FutureText(future: seq<(string, seq<string>)>): string {
    FutureHeading + "\n" + FutureWrites(future)
  }

  /** `main` from the read to the writes: the rewritten note, the pending
      lines and the future blocks. */
  method ParseWeeklyNote(content: string) returns (note: string, pending: seq<string>, future: seq<(string, seq<string>)>)
    ensures var st := Sorted(content);
      note == NoteText(st.cleaned) && pending == st.pending && future == st.future
  {
    var lines := Split(content);
    var blocks := NoteBlocks(lines);
    ghost var os := Outcomes(blocks);
    var st := Sorting([], [], [Preamble(lines)]);
    ghost var st0 := st;
    for i := 0 to |blocks|
      invariant st == SortAll(st0, os[..i])
    {
      assert os[..i + 1][..i] == os[..i];
      st := SortBlock(st, blocks[i]);
    }
    assert os[..|os|] == os;
    var text := JoinWith(st.cleaned, "\n\n");
    note := Strip(text) + "\n";
    pending, future := st.pending, st.future;
  }

  /** The body of `for block in blocks`. */
  method SortBlock(st: Sorting, block: seq<string>) returns (r: Sorting)
    ensures r == Add(st, Classify(block))
  {
    var ls := SplitLines(Strip(Join(block)));
    if ls == [] {
      return st;
    }
    var title := Strip(ls[0]);
    var body := if |ls| > 1 then ls[1..] else [];
    if IsFutureTitle(title) {
      var tasks := TaskLines(body);
      r := st;
      if tasks != [] || title != "" {
        r := st.(future := st.future + [(title, tasks)]);
      }
      return;
    }
    var moved, kept := SplitBody(body);
    r := Sorting(st.pending + moved, st.future, st.cleaned + [Strip(Join([title] + kept))]);
  }

  /** `for line in body: ...`: the task lines go to `moved`, the rest to
      `kept`. */
  method SplitBody(body: seq<string>) returns (moved: seq<string>, kept: seq<string>)
    ensures moved == TaskLines(body) && kept == OtherLines(body)
  {
    moved, kept := [], [];
    for i := 0 to |body|
      invariant moved == TaskLines(body[..i]) && kept == OtherLines(body[..i])
    {
      assert body[..i + 1][..i] == body[..i];
      if TaskLine(body[i]) {
        moved := moved + [body[i]];
      } else {
        kept := kept + [body[i]];
      }
    }
    assert body[..|body|] == body;
  }

  // ---------------------------------------------------------------------
  // What the cleanup promises
  // ---------------------------------------------------------------------

  /** Only task lines are pending, and a future entry has a future title
      and only task lines. */
  lemma {:induction false} SortedLines(st: Sorting, bs: seq<seq<string>>)
    requires forall l :: l in st.pending ==> TaskLine(l)
    requires forall e :: e in st.future ==> IsFutureTitle(e.0) && forall t :: t in e.1 ==> TaskLine(t)
    ensures var r := SortAll(st, Outcomes(bs));
      (forall l :: l in r.pending ==> TaskLine(l)) &&
      (forall e :: e in r.future ==> IsFutureTitle(e.0) && forall t :: t in e.1 ==> TaskLine(t))
  {
    if bs != [] {
      var init, b := bs[..|bs| - 1], bs[|bs| - 1];
      assert Outcomes(bs)[..|bs| - 1] == Outcomes(init);
      SortedLines(st, init);
      var ls := SplitLines(Strip(Join(b)));
      if ls != [] {
        PartitionSpec(ls[1..]);
      }
    }
  }

  /** Every pending line of the note is a task line, and every future
      entry has a future title and only task lines. */
  lemma SortedSpec(content: string)
    ensures var r := Sorted(content);
      (forall l :: l in r.pending ==> TaskLine(l)) &&
      (forall e :: e in r.future ==> IsFutureTitle(e.0) && forall t :: t in e.1 ==> TaskLine(t))
  {
    var lines := Split(content);
    SortedLines(Sorting([], [], [Preamble(lines)]), NoteBlocks(lines));
  }

  /** The rewritten note begins with the preamble when there is one. */
  lemma NoteStartsWithPreamble(content: string)
    ensures var p, r := Preamble(Split(content)), Sorted(content);
      r.cleaned != [] && r.cleaned[0] == p &&
      (p != "" ==> StartsWith(NoteText(r.cleaned), p))
  {
    var lines := Split(content);
    var p := Preamble(lines);
    var os := Outcomes(NoteBlocks(lines));
    var cleaned := SortAll(Sorting([], [], [p]), os).cleaned;
    assert [p] <= cleaned;
    StripIdempotent(Piece(lines, 0, PreambleEnd(lines)));
    NoteTextStarts(cleaned);
  }

  /** A stripped first piece begins the note text. */
  lemma NoteTextStarts(cleaned: seq<string>)
    requires cleaned != [] && Strip(cleaned[0]) == cleaned[0]
    ensures cleaned[0] != "" ==> StartsWith(NoteText(cleaned), cleaned[0])
  {
    var p := cleaned[0];
    if p != "" {
      StripSpec(p);
      JoinStartsWith(cleaned);
      var s := JoinWith(cleaned, "\n\n");
      assert s[..|p|] == p;
      RStripKeepsPrefix(s, |p|);
      assert Strip(s) == RStrip(s);
      assert NoteText(cleaned)[..|p|] == Strip(s)[..|p|];
    }
  }

  lemma JoinStartsWith(ls: seq<string>)
    requires ls != []
    ensures StartsWith(JoinWith(ls, "\n\n"), ls[0])
  {
  }

  /** The rewritten note ends with exactly one line break after its last
      non-blank character. */
  lemma NoteTextEnd(cleaned: seq<string>)
    ensures var r := NoteText(cleaned);
      |r| >= 1 && r[|r| - 1] == '\n' && (|r| == 1 || !IsSpace(r[|r| - 2]))
  {
    StripSpec(JoinWith(cleaned, "\n\n"));
  }

  /** The pending file is the heading and the pending lines, one per line
      (an empty line if there are none), with a final line break. */
  lemma PendingTextLines(pending: seq<string>)
    requires AllNoNewline(pending)
    ensures Split(PendingText(pending)) == [PendingHeading] + (if pending == [] then [""] else pending) + [""]
  {
    assert PendingText(pending) == PendingHeading + "\n" + (Join(pending) + "\n");
    SplitAfterLine(PendingHeading, Join(pending) + "\n");
    if pending == [] {
      assert Join(pending) + "\n" == "" + "\n" + "";
      SplitAfterLine("", "");
    } else {
      JoinWithSnoc(pending, "", "\n");
      assert Join(pending) + "\n" == Join(pending + [""]);
      SplitJoin(pending + [""]);
    }
  }

  lemma HeadingOneLine()
    ensures NoNewline(FutureHeading)
  {
    forall i | 0 <= i < |FutureHeading| ensures FutureHeading[i] != '\n' {
      assert FutureHeading[i] in "### Tarefas dofuturbsemnil";
    }
  }

  /** Lines each followed by a line break. */
  function Terminated(ls: seq<string>): string {
    if ls == [] then "" else ls[0] + "\n" + Terminated(ls[1..])
  }

  lemma {:induction false} TerminatedSplit(ls: seq<string>)
    requires AllNoNewline(ls)
    ensures Split(Terminated(ls)) == ls + [""]
  {
    if ls != [] {
      TerminatedSplit(ls[1..]);
      SplitAfterLine(ls[0], Terminated(ls[1..]));
      assert [ls[0]] + (ls[1..] + [""]) == ls + [""];
    }
  }

  lemma {:induction false} TerminatedAppend(a: seq<string>, b: seq<string>)
    ensures Terminated(a + b) == Terminated(a) + Terminated(b)
  {
    if a == [] {
      assert a + b == b;
    } else {
      TerminatedAppend(a[1..], b);
      assert (a + b)[1..] == a[1..] + b;
    }
  }

  /** The lines of the future file after its heading: per block the title,
      a blank line, the tasks and a blank line. */
  function FutureLines(future: seq<(string, seq<string>)>): seq<string> {
    if future == [] then []
    else
      var (t, ts) := future[|future| - 1];
      FutureLines(future[..|future| - 1]) + [t, ""] + ts + [""]
  }

  lemma {:induction false} TaskWritesLines(tasks: seq<string>)
    ensures TaskWrites(tasks) == Terminated(tasks)
  {
    if tasks != [] {
      var init, t := tasks[..|tasks| - 1], tasks[|tasks| - 1];
      TaskWritesLines(init);
      TerminatedAppend(init, [t]);
      assert tasks == init + [t];
    }
  }

  lemma {:induction false} FutureWritesLines(future: seq<(string, seq<string>)>)
    ensures FutureWrites(future) == Terminated(FutureLines(future))
  {
    if future != [] {
      var init := future[..|future| - 1];
      var (t, ts) := future[|future| - 1];
      FutureWritesLines(init);
      TaskWritesLines(ts);
      var pre := FutureLines(init);
      TerminatedAppend(pre + [t, ""] + ts, [""]);
      TerminatedAppend(pre + [t, ""], ts);
      TerminatedAppend(pre, [t, ""]);
      assert Terminated([t, ""]) == t + "\n" + ("" + "\n" + "");
      assert Terminated([""]) == "" + "\n" + "";
    }
  }

  /** The future file, read back line by line: its heading, then per future
      block the title, a blank line, the task lines and a blank line. */
  lemma FutureTextLines(future: seq<(string, seq<string>)>)
    requires AllNoNewline(FutureLines(future))
    ensures Split(FutureText(future)) == [FutureHeading] + FutureLines(future) + [""]
  {
    FutureWritesLines(future);
    TerminatedSplit(FutureLines(future));
    HeadingOneLine();
    SplitAfterLine(FutureHeading, FutureWrites(future));
  }
}
