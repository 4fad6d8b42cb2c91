/** The day-section parser and the date classifier of the current pipeline
    (`modules/utils.py`).

    A note is its text; `Split` gives its lines. A day section starts at a
    line `### Word (DD/MM)...` and runs up to the next line that starts with
    `### ` (any heading) or to the end of the note. The text before the
    first `### ` heading is the preamble. Headings are assumed to occur only
    at the start of lines. */
module DayNotes {
  import opened Text
  import opened Dict
  import opened Dates

  /** One or more characters of the regex class `\w`. */
  predicate IsWord(s: string) {
    |s| >= 1 && forall i :: 0 <= i < |s| ==> IsWordChar(s[i])
  }

  /** `\d{2}/\d{2}` matches `s` at index `i`. */
  predicate DDMMAt(s: string, i: int) {
    0 <= i && i + 5 <= |s| && IsDigit(s[i]) && IsDigit(s[i + 1]) && s[i + 2] == '/'
    && IsDigit(s[i + 3]) && IsDigit(s[i + 4])
  }

  /** The length of the run of `\w` characters that `s` starts with. */
  function WordLength(s: string): (n: nat)
    ensures n <= |s| && IsWord(s[..n]) == (n >= 1)
    ensures n < |s| ==> !IsWordChar(s[n])
  {
    if s == [] || !IsWordChar(s[0]) then 0
    else
      var n := WordLength(s[1..]) + 1;
      assert s[..n] == [s[0]] + s[1..][..n - 1];
      n
  }

  /** `re.match(r"(\w+) \((\d{2}/\d{2})\)", s)`: the weekday word and the
      `DD/MM` of a string that starts `Word (DD/MM)`. */
  function MatchWordDate(s: string): Option<(string, string)> {
    var n := WordLength(s);
    if n >= 1 && n + 8 <= |s| && s[n] == ' ' && s[n + 1] == '(' && DDMMAt(s, n + 2) && s[n + 7] == ')'
    then Some((s[..n], s[n + 2..n + 7]))
    else None
  }

  /** `extract_day_date`: the weekday and `DD/MM` of a header that starts
      `### Word (DD/MM)`; `None` stands for `(None, None)`. */
  function ExtractDayDate(header: string): Option<(string, string)> {
    if StartsWith(header, "### ") then MatchWordDate(header[4..]) else None
  }

  /** What a successful match says about the string: it is the word, a
      space, the date in parentheses and whatever follows. */
  lemma MatchWordDateShape(s: string)
    requires MatchWordDate(s).Some?
    ensures var (w, dt) := MatchWordDate(s).value;
      IsWord(w) && |dt| == 5 && DDMMAt(dt, 0)
      && s == w + " (" + dt + ")" + s[|w| + 8..]
  {
    var n := WordLength(s);
    assert DDMMAt(s[n + 2..n + 7], 0);
    Parenthesised(s, n);
  }

  /** A string with ` (` at `n`, and `)` five characters later, is the
      piece before, ` (`, the five characters, `)` and the rest. */
  lemma Parenthesised(s: string, n: nat)
    requires n + 8 <= |s| && s[n] == ' ' && s[n + 1] == '(' && s[n + 7] == ')'
    ensures s == s[..n] + " (" + s[n + 2..n + 7] + ")" + s[n + 8..]
  {
    var w, dt := s[..n], s[n + 2..n + 7];
    var a, b, c, rest := s[n..], s[n + 2..], s[n + 7..], s[n + 8..];
    assert c == ")" + rest;
    assert b == dt + c;
    assert a == " (" + b;
    assert s == w + a;
    assert w + (" (" + (dt + (")" + rest))) == w + " (" + dt + ")" + rest;
  }

  /** Conversely, every string of that shape matches with its own word and date. */
  lemma {:induction false} MatchWordDateOf(w: string, dt: string, rest: string)
    requires IsWord(w) && |dt| == 5 && DDMMAt(dt, 0)
    ensures MatchWordDate(w + " (" + dt + ")" + rest) == Some((w, dt))
  {
    var s := w + " (" + dt + ")" + rest;
    WordLengthOf(w, s[|w|..]);
    assert s == w + s[|w|..];
    assert s[..|w|] == w && s[|w| + 2..|w| + 7] == dt;
  }

  lemma {:induction false} WordLengthOf(w: string, t: string)
    requires IsWord(w) && t != [] && !IsWordChar(t[0])
    ensures WordLength(w + t) == |w|
  {
    if |w| > 1 {
      assert (w + t)[1..] == w[1..] + t;
      WordLengthOf(w[1..], t);
    } else {
      assert (w + t)[1..] == t;
    }
  }

  lemma ExtractDayDateOf(w: string, dt: string, rest: string)
    requires IsWord(w) && |dt| == 5 && DDMMAt(dt, 0)
    ensures ExtractDayDate("### " + w + " (" + dt + ")" + rest) == Some((w, dt))
  {
    var h := "### " + w + " (" + dt + ")" + rest;
    assert h[4..] == w + " (" + dt + ")" + rest;
    MatchWordDateOf(w, dt, rest);
  }

  lemma ExtractDayDateShape(header: string)
    requires ExtractDayDate(header).Some?
    ensures var (w, dt) := ExtractDayDate(header).value;
      IsWord(w) && |dt| == 5 && DDMMAt(dt, 0)
      && header == "### " + w + " (" + dt + ")" + header[|w| + 12..]
  {
    MatchWordDateShape(header[4..]);
  }

  /** The index of the leftmost `DD/MM` in `s`, or -1 (`re.search`). */
  function FindDDMM(s: string): (r: int)
    ensures r == -1 || DDMMAt(s, r)
    ensures forall i :: 0 <= i && (r < 0 || i < r) ==> !DDMMAt(s, i)
  {
    FindDDMMFrom(s, 0)
  }

  function FindDDMMFrom(s: string, k: nat): (r: int)
    requires forall i :: 0 <= i < k ==> !DDMMAt(s, i)
    ensures r == -1 || DDMMAt(s, r)
    ensures forall i :: 0 <= i && (r < 0 || i < r) ==> !DDMMAt(s, i)
    decreases |s| - k
  {
    if k + 5 > |s| then -1
    else if DDMMAt(s, k) then k
    else FindDDMMFrom(s, k + 1)
  }

  /** The date, in year `y`, written as `DD/MM` at index `i` of `s`. */
  function DateAt(s: string, i: int, y: int): Date
    requires DDMMAt(s, i)
  {
    Date(y, ParseTwoDigits(s[i + 3..i + 5]), ParseTwoDigits(s[i..i + 2]))
  }

  /** `is_future_date`, with today's date as a parameter: the first
      `DD/MM` in the string, read in today's year, decides. */
  function IsFutureDate(s: string, today: Date): bool
    requires ValidDate(today)
  {
    FutureFrom(s, 0, today)
  }

  /** The scan of `IsFutureDate` from index `k` on. */
  function FutureFrom(s: string, k: nat, today: Date): bool
    requires ValidDate(today)
    decreases |s| - k
  {
    if k + 5 > |s| then false
    else if DDMMAt(s, k) then
      var d := DateAt(s, k, today.year);
      ValidDate(d) && After(d, today)
    else FutureFrom(s, k + 1, today)
  }

  /** The scan finds the first `DD/MM` at or after `k`, as `FindDDMMFrom`
      does. */
  lemma {:induction false} FutureFromFind(s: string, k: nat, today: Date)
    requires ValidDate(today)
    requires forall i :: 0 <= i < k ==> !DDMMAt(s, i)
    ensures FindDDMMFrom(s, k) < 0 ==> !FutureFrom(s, k, today)
    ensures FindDDMMFrom(s, k) >= 0 ==>
      (FutureFrom(s, k, today) <==>
        ValidDate(DateAt(s, FindDDMMFrom(s, k), today.year)) && After(DateAt(s, FindDDMMFrom(s, k), today.year), today))
    decreases |s| - k
  {
    if k + 5 <= |s| && !DDMMAt(s, k) {
      FutureFromFind(s, k + 1, today);
    }
  }

  /** Without a `DD/MM` in the string the answer is "not future". */
  lemma IsFutureDateNoDate(s: string, today: Date)
    requires ValidDate(today)
    requires forall i :: !DDMMAt(s, i)
    ensures !IsFutureDate(s, today)
  {
    FutureFromFind(s, 0, today);
  }

  /** The first `DD/MM` decides: the string names a future date exactly when
      that day and month form a real date of the current year that comes
      after today. */
  lemma IsFutureDateSpec(s: string, today: Date, i: int)
    requires ValidDate(today)
    requires DDMMAt(s, i) && forall j :: 0 <= j < i ==> !DDMMAt(s, j)
    ensures IsFutureDate(s, today) <==>
      ValidDate(DateAt(s, i, today.year)) && DayNumber(DateAt(s, i, today.year)) > DayNumber(today)
  {
    FutureFromFind(s, 0, today);
    assert FindDDMM(s) == i;
    if ValidDate(DateAt(s, i, today.year)) {
      AfterIsLater(DateAt(s, i, today.year), today);
    }
  }

  /** 31/02 never names a future date, and does not make the check fail. */
  lemma ImpossibleDateIsNotFuture(today: Date)
    requires ValidDate(today)
    ensures !IsFutureDate("### Monday (31/02)", today)
  {
    var s := "### Monday (31/02)";
    assert DDMMAt(s, 12);
    assert forall j :: 0 <= j < 12 ==> !DDMMAt(s, j) by {
      forall j | 0 <= j < 12 ensures !DDMMAt(s, j) {
        assert !IsDigit(s[j + 2]) || !IsDigit(s[j + 1]) || !IsDigit(s[j]) || s[j + 2] != '/';
      }
    }
    IsFutureDateSpec(s, today, 12);
  }

  /** A heading line: it ends the section before it. */
  predicate IsHeading(line: string) {
    StartsWith(line, "### ")
  }

  /** A heading with text after `### ` (`^### .+`). */
  predicate IsTitledHeading(line: string) {
    IsHeading(line) && |line| > 4
  }

  /** A day header, where a section of the day pattern begins. */
  predicate IsDayHeader(line: string) {
    ExtractDayDate(line).Some?
  }

  lemma DayHeaderIsTitled(line: string)
    requires IsDayHeader(line)
    ensures IsTitledHeading(line) && line[0] == '#'
  {
  }

  /** The text from the start of line `i` to the start of line `j` of the note. */
  function Piece(lines: seq<string>, i: int, j: int): string
    requires 0 <= i <= j <= |lines|
  {
    Join(lines[i..j]) + (if i < j && j < |lines| then "\n" else "")
  }

  /** The first line `^### .+` matches, or the number of lines. */
  function PreambleEnd(lines: seq<string>): (p: nat)
    ensures p <= |lines|
    ensures forall k :: 0 <= k < p ==> !IsTitledHeading(lines[k])
    ensures p < |lines| ==> IsTitledHeading(lines[p])
  {
    if lines == [] then 0
    else if IsTitledHeading(lines[0]) then 0
    else
      var p := PreambleEnd(lines[1..]) + 1;
      assert forall k :: 1 <= k < p ==> lines[k] == lines[1..][k - 1];
      p
  }

  /** The line at which the section opened at line `i` stops: the next
      heading, or the end of the note. */
  function NextHeading(lines: seq<string>, i: int): (j: int)
    requires 0 <= i < |lines|
    ensures i < j <= |lines|
    ensures forall k :: i < k < j ==> !IsHeading(lines[k])
    ensures j < |lines| ==> IsHeading(lines[j])
    decreases |lines| - i
  {
    if i + 1 == |lines| || IsHeading(lines[i + 1]) then i + 1 else NextHeading(lines, i + 1)
  }

  /** The preamble: the text before the first `### ` heading, stripped. */
  function Preamble(lines: seq<string>): string {
    Strip(Piece(lines, 0, PreambleEnd(lines)))
  }

  /** The (key, body) that the match at line `i` adds to the dictionary: the
      first line of the stripped section, and the rest of its lines. */
  function Entry(lines: seq<string>, i: int): (string, string)
    requires 0 <= i < |lines| && IsDayHeader(lines[i])
  {
    var ls := SplitLines(Strip(Piece(lines, i, NextHeading(lines, i))));
    if ls == [] then ("", "") else (ls[0], Join(ls[1..]))
  }

  /** The matches among the first `n` lines, in order. */
  function Matches(lines: seq<string>, n: int): (ps: seq<(string, string)>)
    requires 0 <= n <= |lines|
  {
    if n == 0 then []
    else Matches(lines, n - 1) + (if IsDayHeader(lines[n - 1]) then [Entry(lines, n - 1)] else [])
  }

  /** One more line adds the entry of its match when it is a day header. */
  lemma MatchesStep(lines: seq<string>, i: int)
    requires 0 <= i < |lines|
    ensures FromPairs(Matches(lines, i + 1)) ==
      if IsDayHeader(lines[i]) then Put(FromPairs(Matches(lines, i)), Entry(lines, i).0, Entry(lines, i).1)
      else FromPairs(Matches(lines, i))
  {
    var ps := Matches(lines, i);
    if IsDayHeader(lines[i]) {
      var p := Entry(lines, i);
      assert Matches(lines, i + 1) == ps + [p];
      assert (ps + [p])[..|ps|] == ps;
    } else {
      assert Matches(lines, i + 1) == ps;
    }
  }

  /** `parse_day_sections`: the stripped preamble, and the day sections in
      the order their headers first appear, a repeated header keeping its
      first place and its last body. */
  method ParseDaySections(content: string) returns (header: string, sections: Dict<string>)
    ensures header == Preamble(Split(content))
    ensures sections == FromPairs(Matches(Split(content), |Split(content)|))
    ensures Valid(sections)
  {
    var lines := Split(content);
    header := Preamble(lines);
    sections := CollectSections(lines);
  }

  /** `day_sections[day_title] = day_content` for the match at line `i`, if any. */
  function AddMatch(lines: seq<string>, i: int, d: Dict<string>): (r: Dict<string>)
    requires 0 <= i < |lines| && d == FromPairs(Matches(lines, i))
    ensures r == FromPairs(Matches(lines, i + 1))
  {
    MatchesStep(lines, i);
    if IsDayHeader(lines[i]) then Put(d, Entry(lines, i).0, Entry(lines, i).1) else d
  }

  /** The loop over the matches of the day pattern, filling the dictionary. */
  method CollectSections(lines: seq<string>) returns (sections: Dict<string>)
    ensures sections == FromPairs(Matches(lines, |lines|))
    ensures Valid(sections)
  {
    sections := Empty();
    var i := 0;
    while i < |lines|
      invariant 0 <= i <= |lines|
      invariant sections == FromPairs(Matches(lines, i))
    {
      sections := AddMatch(lines, i, sections);
      i := i + 1;
    }
  }

  /** A note without a `### ` heading is all preamble and has no sections. */
  lemma {:induction false} NoHeadingAllPreamble(content: string)
    requires forall k :: 0 <= k < |Split(content)| ==> !IsTitledHeading(Split(content)[k])
    ensures Preamble(Split(content)) == Strip(content)
    ensures Matches(Split(content), |Split(content)|) == []
  {
    var lines := Split(content);
    var p := PreambleEnd(lines);
    assert p == |lines|;
    assert lines[0..p] == lines;
    assert Piece(lines, 0, p) == Join(lines);
    JoinSplit(content);
    NoDayHeaderNoMatches(lines, |lines|);
  }

  lemma {:induction false} NoDayHeaderNoMatches(lines: seq<string>, n: int)
    requires 0 <= n <= |lines|
    requires forall k :: 0 <= k < n ==> !IsTitledHeading(lines[k])
    ensures Matches(lines, n) == []
  {
    if n > 0 {
      NoDayHeaderNoMatches(lines, n - 1);
      if IsDayHeader(lines[n - 1]) {
        DayHeaderIsTitled(lines[n - 1]);
      }
    }
  }

  /** `strip()` ignores the '\n' that ends a piece of text starting with a
      non-space. */
  lemma StripNewlineEnd(x: string)
    requires x != [] && !IsSpace(x[0])
    ensures Strip(x + "\n") == Strip(x)
  {
    LStripFixed(x + "\n");
    LStripFixed(x);
    RStripBlankSuffix(x, "\n");
  }

  /** The lines of a stripped section: the section's own lines up to the
      next heading, without trailing blank lines, the last one kept
      right-stripped. */
  lemma SectionLines(lines: seq<string>, i: int)
    requires AllNoNewline(lines)
    requires 0 <= i < |lines| && IsDayHeader(lines[i])
    ensures SplitLines(Strip(Piece(lines, i, NextHeading(lines, i)))) == TrimTail(lines[i..NextHeading(lines, i)])
  {
    var j := NextHeading(lines, i);
    var sec := lines[i..j];
    assert sec[0] == lines[i];
    DayHeaderIsTitled(lines[i]);
    assert AllNoNewline(sec) by {
      forall k | 0 <= k < |sec| ensures NoNewline(sec[k]) {
        assert sec[k] == lines[i + k];
      }
    }
    var text := Join(sec);
    assert text[0] == '#' by {
      if |sec| > 1 { assert text == sec[0] + "\n" + Join(sec[1..]); }
    }
    if j < |lines| {
      StripNewlineEnd(text);
      assert Strip(Piece(lines, i, j)) == Strip(text);
    } else {
      assert Piece(lines, i, j) == text;
    }
    StripSplitLinesBlock(sec);
  }

  /** The entry of a section: its key is the header line (right-stripped
      when nothing but blank lines follow it) and its body is the section's
      remaining lines, up to the next heading and without the trailing
      blank lines. */
  lemma SectionEntry(lines: seq<string>, i: int)
    requires AllNoNewline(lines)
    requires 0 <= i < |lines| && IsDayHeader(lines[i])
    ensures var sec := TrimTail(lines[i..NextHeading(lines, i)]);
      sec != [] && Entry(lines, i) == (sec[0], Join(sec[1..]))
    ensures Entry(lines, i).0 == lines[i] || Entry(lines, i).0 == RStrip(lines[i])
  {
    var j := NextHeading(lines, i);
    SectionLines(lines, i);
    var sec := TrimTail(lines[i..j]);
    DayHeaderIsTitled(lines[i]);
    assert lines[i..j][0] == lines[i];
    assert !IsBlank(lines[i]);
    assert sec != [];
  }
}
