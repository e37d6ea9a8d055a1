/** The output layer: an indentation prefix at the start of every non-blank line. */
module Indentation {

  // What a write of s adds to the output, from a line start or from mid-line.
  function Indented(s: string, indent: string, atStart: bool): string {
    if s == "" then ""
    else if s[0] == '\n' then "\n" + Indented(s[1..], indent, true)
    else (if atStart then indent else "") + [s[0]] + Indented(s[1..], indent, false)
  }

  // Whether the cursor stands at a line start after s.
  function AtStart(s: string, atStart: bool): bool {
    if s == "" then atStart else s[|s| - 1] == '\n'
  }

  // ----- writes compose -----

  // The output does not depend on how the text is split into writes.
  lemma {:induction false} SplitIndependent(a: string, b: string, indent: string, atStart: bool)
    ensures Indented(a + b, indent, atStart) == Indented(a, indent, atStart) + Indented(b, indent, AtStart(a, atStart))
    ensures AtStart(a + b, atStart) == AtStart(b, AtStart(a, atStart))
  {
    if a == "" {
      assert a + b == b;
    } else {
      assert (a + b)[0] == a[0] && (a + b)[1..] == a[1..] + b;
      SplitIndependent(a[1..], b, indent, a[0] == '\n');
      assert AtStart(a, atStart) == AtStart(a[1..], a[0] == '\n');
      IndentedCons(a, indent, atStart);
      IndentedCons(a + b, indent, atStart);
      Regroup(OneByte(a[0], indent, atStart), Indented(a[1..], indent, a[0] == '\n'),
              Indented(b, indent, AtStart(a, atStart)));
    }
  }

  // What one byte adds.
  function OneByte(c: char, indent: string, atStart: bool): string {
    if c == '\n' then "\n" else (if atStart then indent else "") + [c]
  }

  lemma IndentedCons(s: string, indent: string, atStart: bool)
    requires s != ""
    ensures Indented(s, indent, atStart) == OneByte(s[0], indent, atStart) + Indented(s[1..], indent, s[0] == '\n')
  {
  }

  lemma Regroup(a: string, b: string, c: string)
    ensures (a + b) + c == a + (b + c)
  {
  }

  // Without an indent the text passes through unchanged.
  lemma {:induction false} NoIndent(s: string, atStart: bool)
    ensures Indented(s, "", atStart) == s
  {
    if s != "" { NoIndent(s[1..], s[0] == '\n'); }
  }

  // ----- line by line -----

  function LineEnd(s: string): (n: nat)
    ensures n <= |s| && (forall k | 0 <= k < n :: s[k] != '\n') && (n < |s| ==> s[n] == '\n')
  {
    if s == "" || s[0] == '\n' then 0 else 1 + LineEnd(s[1..])
  }

  // The lines of a text, the last one without its newline.
  function Lines(s: string): (ls: seq<string>)
    ensures ls != []
    decreases |s|
  {
    var n := LineEnd(s);
    if n == |s| then [s] else [s[..n]] + Lines(s[n + 1..])
  }

  function Join(ls: seq<string>): string
    requires ls != []
  {
    if |ls| == 1 then ls[0] else ls[0] + "\n" + Join(ls[1..])
  }

  function PrefixLine(line: string, indent: string): string {
    if line == "" then "" else indent + line
  }

  // Every non-blank line is prefixed, the blank ones stay blank.
  function PrefixLines(ls: seq<string>, indent: string): (r: seq<string>)
    ensures |r| == |ls|
  {
    if ls == [] then [] else [PrefixLine(ls[0], indent)] + PrefixLines(ls[1..], indent)
  }

  lemma {:induction false} IndentedLine(line: string, indent: string, atStart: bool)
    requires '\n' !in line
    ensures Indented(line, indent, atStart) == if atStart then PrefixLine(line, indent) else line
  {
    if line != "" {
      IndentedLine(line[1..], indent, false);
      assert line == [line[0]] + line[1..];
    }
  }

  // From a line start, writing a text outputs its lines, each non-blank one prefixed.
  lemma {:induction false} LineByLine(s: string, indent: string)
    ensures Indented(s, indent, true) == Join(PrefixLines(Lines(s), indent))
    decreases |s|
  {
    var n := LineEnd(s);
    if n == |s| {
      IndentedLine(s, indent, true);
    } else {
      var line, rest := s[..n], s[n + 1..];
      assert s == line + ("\n" + rest);
      SplitIndependent(line, "\n" + rest, indent, true);
      IndentedLine(line, indent, true);
      assert ("\n" + rest)[1..] == rest;
      LineByLine(rest, indent);
      var ls := [line] + Lines(rest);
      assert ls[1..] == Lines(rest);
      var r := PrefixLines(ls, indent);
      assert r[1..] == PrefixLines(Lines(rest), indent);
    }
  }

  // Nested regions add up: indenting the output of an inner region indents by both.
  lemma {:induction false} NestedIndent(s: string, outer: string, inner: string, atStart: bool)
    requires '\n' !in inner
    ensures Indented(Indented(s, inner, atStart), outer, atStart) == Indented(s, outer + inner, atStart)
    decreases |s|
  {
    if s != "" {
      var rest := s[1..];
      var tail := Indented(rest, inner, s[0] == '\n');
      NestedIndent(rest, outer, inner, s[0] == '\n');
      if s[0] == '\n' {
        assert ("\n" + tail)[1..] == tail;
      } else {
        var head := (if atStart then inner else "") + [s[0]];
        assert Indented(s, inner, atStart) == head + tail;
        assert '\n' !in head;
        SplitIndependent(head, tail, outer, atStart);
        IndentedLine(head, outer, atStart);
        if atStart { assert outer + (inner + [s[0]]) == (outer + inner) + [s[0]]; }
      }
    }
  }

  // What one loop step writes: a line, prefixed at a line start, with its newline if it has one.
  lemma OneLine(line: string, nl: string, indent: string, atStart: bool)
    requires '\n' !in line && (nl == "" || nl == "\n") && line + nl != ""
    ensures Indented(line + nl, indent, atStart) == (if atStart && line != "" then indent else "") + line + nl
    ensures AtStart(line + nl, atStart) == (nl == "\n")
  {
    SplitIndependent(line, nl, indent, atStart);
    IndentedLine(line, indent, atStart);
    if nl == "" { assert line + nl == line; }
  }

  lemma Advance(base: string, done: string, line: string, nl: string, rest: string, indent: string, atStart: bool)
    requires '\n' !in line && (nl == "" || nl == "\n") && line + nl != ""
    ensures done + ((line + nl) + rest) == (done + (line + nl)) + rest
    ensures base + Indented(done, indent, atStart) + ((if AtStart(done, atStart) && line != "" then indent else "")
                                                      + line + nl)
         == base + Indented(done + (line + nl), indent, atStart)
    ensures AtStart(done + (line + nl), atStart) == (nl == "\n")
  {
    OneLine(line, nl, indent, AtStart(done, atStart));
    SplitIndependent(done, line + nl, indent, atStart);
    var a, b := Indented(done, indent, atStart), Indented(line + nl, indent, AtStart(done, atStart));
    assert base + a + b == base + (a + b);
  }

  // ----- the writer -----

  class IndentWriter {
    var indent: string
    var atLineStart: bool
    var out: string

    constructor ()
      ensures indent == "" && atLineStart && out == ""
    {
      indent, atLineStart, out := "", true, "";
    }

    method Write(s: string)
      modifies this
      ensures indent == old(indent)
      ensures out == old(out) + Indented(s, indent, old(atLineStart))
      ensures atLineStart == AtStart(s, old(atLineStart))
    {
      if indent == "" {
        if s != "" { atLineStart := s[|s| - 1] == '\n'; }
        NoIndent(s, old(atLineStart));
        out := out + s;
      } else {
        WriteIndented(s);
      }
    }

    // Line by line, prefixing the first content of each.
    method WriteIndented(s: string)
      modifies this
      ensures indent == old(indent)
      ensures out == old(out) + Indented(s, indent, old(atLineStart))
      ensures atLineStart == AtStart(s, old(atLineStart))
    {
      var rest := s;
      ghost var done := "";
      while |rest| > 0
        invariant s == done + rest && indent == old(indent)
        invariant out == old(out) + Indented(done, indent, old(atLineStart))
        invariant atLineStart == AtStart(done, old(atLineStart))
        decreases |rest|
      {
        var n := LineEnd(rest);
        var line := rest[..n];
        var hasNL := n < |rest|;
        ghost var nl := if hasNL then "\n" else "";
        ghost var before := rest;
        rest := if hasNL then rest[n + 1..] else "";
        assert before == (line + nl) + rest;
        Advance(old(out), done, line, nl, rest, indent, old(atLineStart));
        WriteLine(line, hasNL);
        done := done + (line + nl);
      }
      assert done == s;
    }

    // One line of a write, with its newline if it has one.
    method WriteLine(line: string, hasNL: bool)
      requires '\n' !in line
      modifies this
      ensures indent == old(indent) && atLineStart == hasNL
      ensures out == old(out) + ((if old(atLineStart) && line != "" then indent else "") + line
                                 + if hasNL then "\n" else "")
    {
      if atLineStart && line != "" { out := out + indent; }
      if line != "" { out := out + line; }
      if hasNL {
        out := out + "\n";
        atLineStart := true;
      } else {
        atLineStart := false;
      }
    }

    // An indented region over a body given as its writes: the region starts a line of its own, and
    // the enclosing indent and cursor come back on exit.
    method Region(levels: int, width: nat, writes: seq<string>)
      modifies this
      ensures indent == old(indent) && atLineStart == old(atLineStart)
      ensures out == old(out) + Indented(Concat(writes), old(indent) + Spaces(levels, width), true)
    {
      var saved, savedAtLineStart := indent, atLineStart;
      if levels > 0 { indent := indent + Spaces(levels, width); }
      atLineStart := true;
      assert indent == old(indent) + Spaces(levels, width);
      for i := 0 to |writes|
        invariant indent == old(indent) + Spaces(levels, width)
        invariant out == old(out) + Indented(Concat(writes[..i]), indent, true)
        invariant atLineStart == AtStart(Concat(writes[..i]), true)
      {
        Write(writes[i]);
        RegionStep(old(out), writes[..i], writes[i], indent);
        assert writes[..i + 1] == writes[..i] + [writes[i]];
      }
      assert writes[..|writes|] == writes;
      indent, atLineStart := saved, savedAtLineStart;
    }
  }

  // One more write of a region.
  lemma RegionStep(base: string, done: seq<string>, w: string, indent: string)
    ensures base + Indented(Concat(done), indent, true) + Indented(w, indent, AtStart(Concat(done), true))
         == base + Indented(Concat(done + [w]), indent, true)
    ensures AtStart(Concat(done + [w]), true) == AtStart(w, AtStart(Concat(done), true))
  {
    assert (done + [w])[..|done|] == done;
    SplitIndependent(Concat(done), w, indent, true);
    var a, b := Indented(Concat(done), indent, true), Indented(w, indent, AtStart(Concat(done), true));
    assert base + a + b == base + (a + b);
  }

  function Concat(writes: seq<string>): string {
    if writes == [] then "" else Concat(writes[..|writes| - 1]) + writes[|writes| - 1]
  }

  // As many blanks as the levels take together; none for no level.
  function Spaces(levels: int, width: nat): (r: string)
    ensures |r| == (if levels > 0 then levels * width else 0) && forall i :: 0 <= i < |r| ==> r[i] == ' '
  {
    if levels <= 0 then "" else seq(levels * width, _ => ' ')
  }
}
