/** Python string primitives used by the note processors, on `seq<char>`.

    A note is handled as the list of its lines: the text split at '\n'
    (`Split`), joined back by `Join`. `str.splitlines()` is `SplitLines`,
    which differs from `Split` only by dropping the empty piece after a
    final '\n'. Only '\n' is treated as a line break. */
module Text {

  /** The characters `str.strip()` removes, limited to the six ASCII whitespace
      characters. */
  predicate IsSpace(c: char) {
    c == ' ' || c == '\t' || c == '\n' || c == '\r' || c == '\U{000B}' || c == '\U{000C}'
  }

  predicate IsBlank(s: string) {
    forall i :: 0 <= i < |s| ==> IsSpace(s[i])
  }

  predicate IsDigit(c: char) {
    '0' <= c <= '9'
  }

  /** Characters of the regex class `\w` (ASCII letters, digits and underscore). */
  predicate IsWordChar(c: char) {
    ('a' <= c <= 'z') || ('A' <= c <= 'Z') || IsDigit(c) || c == '_'
  }

  /** `s.lstrip()` */
  function LStrip(s: string): (r: string)
    ensures |r| <= |s| && r == s[|s| - |r|..]
    ensures r == [] || !IsSpace(r[0])
  {
    if s != [] && IsSpace(s[0]) then LStrip(s[1..]) else s
  }

  /** What `LStrip` removes is whitespace. */
  lemma {:induction false} LStripRemovesSpace(s: string)
    ensures forall i :: 0 <= i < |s| - |LStrip(s)| ==> IsSpace(s[i])
  {
    if s != [] && IsSpace(s[0]) {
      LStripRemovesSpace(s[1..]);
    }
  }

  /** `s.rstrip()` */
  function RStrip(s: string): (r: string)
    ensures |r| <= |s| && r == s[..|r|]
    ensures r == [] || !IsSpace(r[|r| - 1])
  {
    if s != [] && IsSpace(s[|s| - 1]) then RStrip(s[..|s| - 1]) else s
  }

  /** What `RStrip` removes is whitespace. */
  lemma {:induction false} RStripRemovesSpace(s: string)
    ensures forall i :: |RStrip(s)| <= i < |s| ==> IsSpace(s[i])
  {
    if s != [] && IsSpace(s[|s| - 1]) {
      RStripRemovesSpace(s[..|s| - 1]);
    }
  }

  /** `RStrip` keeps every character up to the last non-space one. */
  lemma {:induction false} RStripKeepsPrefix(s: string, n: int)
    requires 0 < n <= |s| && !IsSpace(s[n - 1])
    ensures n <= |RStrip(s)| && RStrip(s)[..n] == s[..n]
    decreases |s|
  {
    if IsSpace(s[|s| - 1]) {
      RStripKeepsPrefix(s[..|s| - 1], n);
    }
  }

  /** `s.strip()`: leading whitespace goes, then trailing whitespace
      (`StripSpec` states what is left). */
  function Strip(s: string): string
    decreases |s|
  {
    if s != [] && IsSpace(s[0]) then Strip(s[1..]) else RStrip(s)
  }

  /** `Strip` is `RStrip` after `LStrip`. */
  lemma {:induction false} StripIsRL(s: string)
    ensures Strip(s) == RStrip(LStrip(s))
    decreases |s|
  {
    if s != [] && IsSpace(s[0]) {
      StripIsRL(s[1..]);
    }
  }

  /** The result of `Strip` is empty exactly when `s` is blank, and
      otherwise neither begins nor ends with whitespace. */
  lemma StripSpec(s: string)
    ensures Strip(s) == RStrip(LStrip(s))
    ensures Strip(s) == [] <==> IsBlank(s)
    ensures Strip(s) != [] ==> !IsSpace(Strip(s)[0]) && !IsSpace(Strip(s)[|Strip(s)| - 1])
  {
    StripIsRL(s);
    var l := LStrip(s);
    var r := RStrip(l);
    if r == [] {
      RStripRemovesSpace(l);
      LStripRemovesSpace(s);
    } else {
      assert r[0] == l[0];
      assert s[|s| - |l|] == l[0];
    }
  }

  lemma {:induction false} RStripFixed(s: string)
    requires s == [] || !IsSpace(s[|s| - 1])
    ensures RStrip(s) == s
  {
  }

  lemma {:induction false} LStripFixed(s: string)
    requires s == [] || !IsSpace(s[0])
    ensures LStrip(s) == s
  {
  }

  /** Stripping twice is stripping once. */
  lemma {:induction false} StripIdempotent(s: string)
    ensures Strip(Strip(s)) == Strip(s)
  {
    var r := Strip(s);
    StripSpec(s);
    StripSpec(r);
    LStripFixed(r);
    RStripFixed(r);
  }

  /** `s.startswith(p)` */
  predicate StartsWith(s: string, p: string) {
    |p| <= |s| && s[..|p|] == p
  }

  lemma StartsWithHead(s: string, p: string)
    requires p != []
    ensures StartsWith(s, p) ==> s != [] && s[0] == p[0]
  {
    if StartsWith(s, p) {
      assert s[..|p|][0] == s[0];
    }
  }

  /** A prefix of `s` that starts with `p` makes `s` start with `p`. */
  lemma StartsWithExtend(r: string, s: string, p: string)
    requires |r| <= |s| && r == s[..|r|]
    ensures StartsWith(r, p) ==> StartsWith(s, p)
  {
    if StartsWith(r, p) {
      assert s[..|p|] == r[..|p|];
    }
  }

  /** Trailing whitespace does not affect a prefix that ends in a
      non-space character. */
  lemma RStripStartsWith(s: string, p: string)
    requires p != [] && !IsSpace(p[|p| - 1])
    ensures StartsWith(RStrip(s), p) <==> StartsWith(s, p)
  {
    StartsWithExtend(RStrip(s), s, p);
    if StartsWith(s, p) {
      assert s[|p| - 1] == s[..|p|][|p| - 1];
      RStripKeepsPrefix(s, |p|);
    }
  }

  /** `t in s` for strings: `t` occurs as a contiguous piece of `s`. */
  predicate Contains(s: string, t: string)
    decreases |s|
  {
    StartsWith(s, t) || (s != [] && Contains(s[1..], t))
  }

  /** `t` occurs in `s` starting at index `i`. */
  predicate OccursAt(s: string, t: string, i: int) {
    0 <= i && i + |t| <= |s| && s[i..i + |t|] == t
  }

  lemma OccursShift(s: string, t: string, i: int)
    requires s != [] && 1 <= i
    ensures OccursAt(s, t, i) <==> OccursAt(s[1..], t, i - 1)
  {
    if i + |t| <= |s| {
      var a, b := s[i..i + |t|], s[1..][i - 1..i - 1 + |t|];
      assert forall j :: 0 <= j < |t| ==> a[j] == b[j];
      assert a == b;
    }
  }

  /** The index of the leftmost occurrence of `t` in `s`, or -1. */
  function Find(s: string, t: string): (r: int)
    ensures r == -1 || OccursAt(s, t, r)
    ensures r >= 0 <==> Contains(s, t)
    ensures forall i :: 0 <= i && (r < 0 || i < r) ==> !OccursAt(s, t, i)
    decreases |s|
  {
    if StartsWith(s, t) then 0
    else if s == [] then -1
    else
      var k := Find(s[1..], t);
      forall i | 1 <= i ensures OccursAt(s, t, i) <==> OccursAt(s[1..], t, i - 1) {
        OccursShift(s, t, i);
      }
      if k < 0 then -1 else k + 1
  }

  /** `line.split(sep, 1)[-1]`: the text after the first `sep`, or the whole
      line when `sep` does not occur. */
  function AfterFirst(line: string, sep: string): (r: string)
    ensures Contains(line, sep) ==> |r| + |sep| <= |line| && r == line[|line| - |r|..]
    ensures Contains(line, sep) ==> r == line[Find(line, sep) + |sep|..]
    ensures !Contains(line, sep) ==> r == line
  {
    var k := Find(line, sep);
    if k < 0 then line else line[k + |sep|..]
  }

  predicate NoNewline(s: string) {
    forall i :: 0 <= i < |s| ==> s[i] != '\n'
  }

  predicate AllNoNewline(ls: seq<string>) {
    forall k :: 0 <= k < |ls| ==> NoNewline(ls[k])
  }

  lemma AllNoNewlineJoin(a: seq<string>, b: seq<string>)
    requires AllNoNewline(a) && AllNoNewline(b)
    ensures AllNoNewline(a + b)
  {
    assert forall k :: 0 <= k < |a| ==> (a + b)[k] == a[k];
    assert forall k :: |a| <= k < |a + b| ==> (a + b)[k] == b[k - |a|];
  }

  /** Stripping a single line leaves a single line. */
  lemma StripNoNewline(s: string)
    requires NoNewline(s)
    ensures NoNewline(Strip(s))
  {
    StripSpec(s);
    var l := LStrip(s);
    var r := RStrip(l);
    assert l == s[|s| - |l|..];
    assert r == l[..|r|];
    forall i | 0 <= i < |r| ensures r[i] != '\n' {
      assert r[i] == s[|s| - |l| + i];
    }
  }

  /** `s.split("\n")`: always at least one piece, none holding a '\n'. */
  function Split(s: string): (r: seq<string>)
    ensures |r| >= 1
  {
    if s == [] then [""]
    else if s[0] == '\n' then [""] + Split(s[1..])
    else
      var t := Split(s[1..]);
      [[s[0]] + t[0]] + t[1..]
  }

  /** No piece of `Split(s)` holds a line break. */
  lemma {:induction false} SplitNoNewlines(s: string)
    ensures AllNoNewline(Split(s))
  {
    if s != [] {
      SplitNoNewlines(s[1..]);
      var t := Split(s[1..]);
      if s[0] != '\n' {
        var r := Split(s);
        assert r[0] == [s[0]] + t[0];
        assert forall k :: 1 <= k < |r| ==> r[k] == t[k];
      }
    }
  }

  /** `sep.join(ls)` */
  function JoinWith(ls: seq<string>, sep: string): string {
    if ls == [] then ""
    else if |ls| == 1 then ls[0]
    else ls[0] + sep + JoinWith(ls[1..], sep)
  }

  /** `"\n".join(ls)` */
  function Join(ls: seq<string>): string {
    JoinWith(ls, "\n")
  }

  /** `s.splitlines()`, for text whose only line break is '\n'. */
  function SplitLines(s: string): seq<string>
    decreases |s|
  {
    if s == [] then []
    else if s[0] == '\n' then [""] + SplitLines(s[1..])
    else
      var t := SplitLines(s[1..]);
      if t == [] then [[s[0]]] else [[s[0]] + t[0]] + t[1..]
  }

  /** `Split` without the empty piece a final line break leaves behind. */
  function DropLastEmpty(p: seq<string>): seq<string>
    requires |p| >= 1
  {
    if p[|p| - 1] == "" then p[..|p| - 1] else p
  }

  /** `SplitLines` is `Split` without the empty piece a final line break
      leaves behind. */
  lemma {:induction false} SplitLinesSplit(s: string)
    ensures SplitLines(s) == DropLastEmpty(Split(s))
    decreases |s|
  {
    if s != [] {
      SplitLinesSplit(s[1..]);
      if s[0] == '\n' {
        DropLastEmptyCons(Split(s[1..]));
      } else {
        DropLastEmptyGlue(s[0], Split(s[1..]));
      }
    }
  }

  lemma DropLastEmptyCons(p: seq<string>)
    requires |p| >= 1
    ensures DropLastEmpty([""] + p) == [""] + DropLastEmpty(p)
  {
    if p[|p| - 1] == "" {
      assert ([""] + p)[..|p|] == [""] + p[..|p| - 1];
    }
  }

  lemma DropLastEmptyGlue(c: char, p: seq<string>)
    requires |p| >= 1
    ensures var t := DropLastEmpty(p);
      DropLastEmpty([[c] + p[0]] + p[1..]) == if t == [] then [[c]] else [[c] + t[0]] + t[1..]
  {
    var q := [[c] + p[0]] + p[1..];
    var t := DropLastEmpty(p);
    if |p| == 1 {
      if p[0] == "" {
        assert [c] + p[0] == [c];
      }
      assert q[0] != "";
    } else if p[|p| - 1] == "" {
      assert q[|q| - 1] == p[|p| - 1];
      assert q[..|q| - 1] == [[c] + t[0]] + t[1..];
    } else {
      assert q[|q| - 1] == p[|p| - 1];
    }
  }

  /** No line of `SplitLines(s)` holds a line break. */
  lemma SplitLinesNoNewlines(s: string)
    ensures AllNoNewline(SplitLines(s))
  {
    SplitNoNewlines(s);
    SplitLinesSplit(s);
  }

  lemma {:induction false} JoinWithSnoc(ls: seq<string>, x: string, sep: string)
    ensures JoinWith(ls + [x], sep) == if ls == [] then x else JoinWith(ls, sep) + sep + x
  {
    if |ls| > 1 {
      assert (ls + [x])[1..] == ls[1..] + [x];
      JoinWithSnoc(ls[1..], x, sep);
    } else if |ls| == 1 {
      assert ls + [x] == [ls[0], x];
    }
  }

  lemma {:induction false} SplitNoNewline(a: string)
    requires NoNewline(a)
    ensures Split(a) == [a]
  {
    if a != [] {
      SplitNoNewline(a[1..]);
      assert [a[0]] + a[1..] == a;
    }
  }

  lemma {:induction false} SplitAfterLine(a: string, b: string)
    requires NoNewline(a)
    ensures Split(a + "\n" + b) == [a] + Split(b)
  {
    if a == [] {
      assert a + "\n" + b == "\n" + b;
      assert ("\n" + b)[1..] == b;
    } else {
      assert (a + "\n" + b)[1..] == a[1..] + "\n" + b;
      SplitAfterLine(a[1..], b);
      assert [a[0]] + a[1..] == a;
    }
  }

  /** Splitting joined lines gives the lines back. */
  lemma {:induction false} SplitJoin(ls: seq<string>)
    requires |ls| >= 1 && AllNoNewline(ls)
    ensures Split(Join(ls)) == ls
  {
    if |ls| == 1 {
      SplitNoNewline(ls[0]);
    } else {
      SplitJoin(ls[1..]);
      SplitAfterLine(ls[0], Join(ls[1..]));
      assert [ls[0]] + ls[1..] == ls;
    }
  }

  /** Joining the pieces of a split gives the text back. */
  lemma {:induction false} JoinSplit(s: string)
    ensures Join(Split(s)) == s
  {
    if s != [] {
      JoinSplit(s[1..]);
      var t := Split(s[1..]);
      if s[0] != '\n' {
        var r := [[s[0]] + t[0]] + t[1..];
        assert r[1..] == t[1..];
        if |t| > 1 {
          assert Join(t) == t[0] + "\n" + Join(t[1..]);
        }
      }
    }
  }

  /** `splitlines` undoes `"\n".join` unless the last line is empty. */
  lemma {:induction false} SplitLinesJoin(ls: seq<string>)
    requires AllNoNewline(ls)
    requires ls == [] || ls[|ls| - 1] != ""
    ensures SplitLines(Join(ls)) == ls
  {
    SplitLinesSplit(Join(ls));
    if ls != [] {
      SplitJoin(ls);
    }
  }

  /** What `strip().splitlines()` leaves of a block of lines that starts
      with a non-space: trailing blank lines go, and the last line kept is
      right-stripped. */
  function TrimTail(ls: seq<string>): (r: seq<string>)
    ensures |r| <= |ls|
    ensures r == [] || !IsBlank(r[|r| - 1])
    ensures forall k :: 0 <= k < |r| - 1 ==> r[k] == ls[k]
    ensures forall k :: |r| <= k < |ls| ==> IsBlank(ls[k])
    ensures r != [] ==> !IsBlank(ls[|r| - 1]) && r[|r| - 1] == RStrip(ls[|r| - 1])
  {
    if ls == [] then []
    else if IsBlank(ls[|ls| - 1]) then TrimTail(ls[..|ls| - 1])
    else
      RStripRemovesSpace(ls[|ls| - 1]);
      ls[..|ls| - 1] + [RStrip(ls[|ls| - 1])]
  }

  lemma {:induction false} RStripBlankSuffix(a: string, b: string)
    requires IsBlank(b)
    ensures RStrip(a + b) == RStrip(a)
    decreases |b|
  {
    if b != [] {
      assert (a + b)[..|a + b| - 1] == a + b[..|b| - 1];
      RStripBlankSuffix(a, b[..|b| - 1]);
    } else {
      assert a + b == a;
    }
  }

  lemma {:induction false} RStripNonBlankSuffix(a: string, b: string)
    requires !IsBlank(b)
    ensures RStrip(a + b) == a + RStrip(b)
    decreases |b|
  {
    if IsSpace(b[|b| - 1]) {
      assert (a + b)[..|a + b| - 1] == a + b[..|b| - 1];
      RStripNonBlankSuffix(a, b[..|b| - 1]);
    }
  }

  /** A blank last line disappears under `RStrip`. */
  lemma RStripJoinBlank(init: seq<string>, last: string)
    requires IsBlank(last)
    ensures RStrip(Join(init + [last])) == RStrip(Join(init))
  {
    JoinWithSnoc(init, last, "\n");
    if init != [] {
      RStripBlankSuffix(Join(init), "\n" + last);
      assert Join(init) + "\n" + last == Join(init) + ("\n" + last);
    } else {
      RStripFixed("");
      RStripBlankSuffix("", last);
      assert "" + last == last;
    }
  }

  /** A non-blank last line loses only its own trailing whitespace. */
  lemma RStripJoinNonBlank(init: seq<string>, last: string)
    requires !IsBlank(last)
    ensures RStrip(Join(init + [last])) == Join(init + [RStrip(last)])
  {
    JoinWithSnoc(init, last, "\n");
    JoinWithSnoc(init, RStrip(last), "\n");
    if init != [] {
      RStripNonBlankSuffix(Join(init) + "\n", last);
    }
  }

  lemma {:induction false} RStripJoin(ls: seq<string>)
    requires AllNoNewline(ls)
    ensures RStrip(Join(ls)) == Join(TrimTail(ls))
    decreases |ls|
  {
    if ls != [] {
      var init, last := ls[..|ls| - 1], ls[|ls| - 1];
      assert ls == init + [last];
      if IsBlank(last) {
        RStripJoin(init);
        RStripJoinBlank(init, last);
      } else {
        RStripJoinNonBlank(init, last);
      }
    }
  }

  lemma TrimTailNoNewline(ls: seq<string>)
    requires AllNoNewline(ls)
    ensures AllNoNewline(TrimTail(ls))
  {
    var t := TrimTail(ls);
    forall k | 0 <= k < |t| ensures NoNewline(t[k]) {
      if k == |t| - 1 {
        assert RStrip(ls[k]) == ls[k][..|RStrip(ls[k])|];
      }
    }
  }

  /** The text of a block of lines whose first character is not a space,
      after `strip().splitlines()`, is `TrimTail` of the block. */
  lemma {:induction false} StripSplitLinesBlock(ls: seq<string>)
    requires AllNoNewline(ls)
    requires |ls| >= 1 && ls[0] != [] && !IsSpace(ls[0][0])
    ensures SplitLines(Strip(Join(ls))) == TrimTail(ls)
  {
    var j := Join(ls);
    assert j[0] == ls[0][0] by {
      if |ls| > 1 { assert j == ls[0] + "\n" + Join(ls[1..]); }
    }
    LStripFixed(j);
    StripSpec(j);
    assert Strip(j) == RStrip(j);
    RStripJoin(ls);
    var t := TrimTail(ls);
    assert !IsBlank(ls[0]);
    assert t != [];
    TrimTailNoNewline(ls);
    SplitLinesJoin(t);
  }

  /** `SplitLines` undoes `Join` up to one trailing empty line. */
  lemma SplitLinesJoinAny(ls: seq<string>)
    requires AllNoNewline(ls)
    ensures ls == [] ==> SplitLines(Join(ls)) == []
    ensures ls != [] ==> SplitLines(Join(ls)) == DropLastEmpty(ls)
  {
    if ls != [] {
      SplitLinesSplit(Join(ls));
      SplitJoin(ls);
    }
  }

  /** `a` is `b` with some lines left out, the rest in their order. */
  predicate Subseq(a: seq<string>, b: seq<string>)
    decreases |b|
  {
    if b == [] then a == []
    else (a != [] && a[0] == b[0] && Subseq(a[1..], b[1..])) || Subseq(a, b[1..])
  }

  lemma {:induction false} SubseqRefl(a: seq<string>)
    ensures Subseq(a, a)
  {
    if a != [] {
      SubseqRefl(a[1..]);
    }
  }

  /** Lines put in front of `b` do not disturb a subsequence of it. */
  lemma {:induction false} SubseqPrefix(a: seq<string>, c: seq<string>, b: seq<string>)
    requires Subseq(a, b)
    ensures Subseq(a, c + b)
    decreases |c|
  {
    if c != [] {
      SubseqPrefix(a, c[1..], b);
      assert (c + b)[1..] == c[1..] + b;
    } else {
      assert c + b == b;
    }
  }

  /** Subsequences of two runs line up into a subsequence of both runs. */
  lemma {:induction false} SubseqAppend(a1: seq<string>, b1: seq<string>, a2: seq<string>, b2: seq<string>)
    requires Subseq(a1, b1) && Subseq(a2, b2)
    ensures Subseq(a1 + a2, b1 + b2)
    decreases |b1|
  {
    if b1 == [] {
      assert a1 + a2 == a2;
      assert b1 + b2 == b2;
    } else {
      assert (b1 + b2)[1..] == b1[1..] + b2;
      if a1 != [] && a1[0] == b1[0] && Subseq(a1[1..], b1[1..]) {
        SubseqAppend(a1[1..], b1[1..], a2, b2);
        assert (a1 + a2)[1..] == a1[1..] + a2;
      } else {
        SubseqAppend(a1, b1[1..], a2, b2);
      }
    }
  }

  /** `a` is a prefix of `b`. */
  predicate IsPrefix(a: string, b: string) {
    |a| <= |b| && b[..|a|] == a
  }

  /** A piece of a text is still a piece once the text grows at the end. */
  lemma {:induction false} ContainsExtend(a: string, b: string, t: string)
    requires Contains(a, t)
    ensures Contains(a + b, t)
    decreases |a|
  {
    if StartsWith(a, t) {
      assert (a + b)[..|t|] == a[..|t|];
    } else {
      ContainsExtend(a[1..], b, t);
      assert (a + b)[1..] == a[1..] + b;
    }
  }

  /** A text contains whatever ends it. */
  lemma {:induction false} ContainsSuffix(a: string, t: string)
    ensures Contains(a + t, t)
    decreases |a|
  {
    if a == [] {
      assert a + t == t && t[..|t|] == t;
    } else {
      ContainsSuffix(a[1..], t);
      assert (a + t)[1..] == a[1..] + t;
    }
  }

  /** Containment carries over to a text that extends this one. */
  lemma ContainsPrefix(a: string, b: string, t: string)
    requires Contains(a, t) && IsPrefix(a, b)
    ensures Contains(b, t)
  {
    ContainsExtend(a, b[|a|..], t);
    assert b == a + b[|a|..];
  }
}
