/** Looking up a day section by a piece of its header, and writing a note
    back from its preamble and its day sections, as the processors of
    `modules/task_processor.py` do. */
module NoteRender {
  import opened Text
  import opened Dict

  /** One section: the header line, its body (stripped when `strip`) and a
      blank line. */
  function Section(header: string, body: string, strip: bool): string {
    header + "\n" + (if strip then Strip(body) else body) + "\n\n"
  }

  /** The body stored under `k` (every key of a valid dictionary has one). */
  function Body(vals: map<string, string>, k: string): string {
    if k in vals then vals[k] else ""
  }

  /** The sections `ks`, in order, with their bodies taken from `vals`. */
  function SectionsText(ks: seq<string>, vals: map<string, string>, strip: bool): string {
    if ks == [] then ""
    else SectionsText(ks[..|ks| - 1], vals, strip) + Section(ks[|ks| - 1], Body(vals, ks[|ks| - 1]), strip)
  }

  /** `header + "\n\n"` followed by every section in dictionary order. */
  function RenderNote(header: string, d: Dict<string>, strip: bool): string
    requires Valid(d)
  {
    header + "\n\n" + SectionsText(d.keys, d.vals, strip)
  }

  /** The rebuilding loop: `new_content += section_header + "\n" + ...`. */
  method Rebuild(header: string, d: Dict<string>, strip: bool) returns (out: string)
    requires Valid(d)
    ensures out == RenderNote(header, d, strip)
  {
    out := header + "\n\n";
    var i := 0;
    while i < |d.keys|
      invariant 0 <= i <= |d.keys|
      invariant out == header + "\n\n" + SectionsText(d.keys[..i], d.vals, strip)
    {
      var k := d.keys[i];
      assert d.keys[..i + 1][..i] == d.keys[..i];
      out := out + Section(k, d.vals[k], strip);
      i := i + 1;
    }
    assert d.keys[..i] == d.keys;
  }

  /** The text of consecutive runs of sections is the concatenation of their
      texts: the note lists the sections in dictionary order, each once. */
  lemma {:induction false} SectionsTextAppend(a: seq<string>, b: seq<string>, vals: map<string, string>, strip: bool)
    ensures SectionsText(a + b, vals, strip) == SectionsText(a, vals, strip) + SectionsText(b, vals, strip)
    decreases |b|
  {
    if b == [] {
      assert a + b == a;
    } else {
      var b0 := b[..|b| - 1];
      assert (a + b)[..|a + b| - 1] == a + b0;
      SectionsTextAppend(a, b0, vals, strip);
    }
  }

  /** Section `i` stands between the sections before it and those after it. */
  lemma SectionInText(ks: seq<string>, vals: map<string, string>, strip: bool, i: int)
    requires 0 <= i < |ks|
    ensures SectionsText(ks, vals, strip) ==
      SectionsText(ks[..i], vals, strip) + Section(ks[i], Body(vals, ks[i]), strip) + SectionsText(ks[i + 1..], vals, strip)
  {
    var pre, post := ks[..i], ks[i + 1..];
    assert ks[..i + 1] == pre + [ks[i]];
    assert ks == ks[..i + 1] + post;
    SectionsTextAppend(ks[..i + 1], post, vals, strip);
    assert SectionsText(ks[..i + 1], vals, strip) == SectionsText(pre, vals, strip) + Section(ks[i], Body(vals, ks[i]), strip) by {
      assert ks[..i + 1][..i] == pre;
    }
  }

  /** The index of the first key that contains `t`, or -1 when none does. */
  function FirstWith(ks: seq<string>, t: string): (i: int)
    ensures -1 <= i < |ks|
    ensures i >= 0 ==> Contains(ks[i], t)
    ensures forall j :: 0 <= j < |ks| && (i < 0 || j < i) ==> !Contains(ks[j], t)
    decreases |ks|
  {
    if ks == [] then -1
    else if Contains(ks[0], t) then 0
    else
      var i := FirstWith(ks[1..], t);
      assert forall j :: 1 <= j < |ks| ==> ks[j] == ks[1..][j - 1];
      if i < 0 then -1 else i + 1
  }

  /** The search `for section_header in day_sections.keys(): if t in
      section_header: ...; break`. */
  method FindSection(ks: seq<string>, t: string) returns (i: int)
    ensures i == FirstWith(ks, t)
  {
    i := 0;
    while i < |ks|
      invariant 0 <= i <= |ks|
      invariant forall j :: 0 <= j < i ==> !Contains(ks[j], t)
    {
      if Contains(ks[i], t) {
        return;
      }
      i := i + 1;
    }
    i := -1;
  }
}
