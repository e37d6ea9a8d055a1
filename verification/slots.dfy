/** Deferred slots: placeholders written during the walk, replaced in the finished output. */
module Slots {

  const NUL: char := '\0'
  const SEP: string := ['\0', '\U{1}']

  predicate Plain(s: string) { NUL !in s }

  // The render's token, wrapped around a counter's text, and the placeholder of a name.
  function Token(id: string): string { SEP + id + SEP }

  function Placeholder(id: string, name: string): string { Token(id) + name + Token(id) }

  // Left to right, non-overlapping.
  function ReplaceAll(s: string, pat: string, put: string): string
    requires pat != ""
    decreases |s|
  {
    if |s| < |pat| then s
    else if s[..|pat|] == pat then put + ReplaceAll(s[|pat|..], pat, put)
    else [s[0]] + ReplaceAll(s[1..], pat, put)
  }

  // ----- documents -----

  // Text with deferred slots: a run of text, then a slot and the rest.
  datatype Doc = End(text: string) | Cut(text: string, name: string, rest: Doc)

  function Flat(d: Doc, id: string): string {
    match d
    case End(t) => t
    case Cut(t, l, r) => t + (Placeholder(id, l) + Flat(r, id))
  }

  predicate PlainDoc(d: Doc) {
    Plain(d.text) && (d.Cut? ==> Plain(d.name) && PlainDoc(d.rest))
  }

  function Labels(d: Doc): set<string> {
    if d.End? then {} else {d.name} + Labels(d.rest)
  }

  function Prepend(t: string, d: Doc): Doc { d.(text := t + d.text) }

  function Append(a: Doc, b: Doc): Doc {
    match a
    case End(t) => Prepend(t, b)
    case Cut(t, l, r) => Cut(t, l, Append(r, b))
  }

  // The slots of one name replaced by a document.
  function Fill(d: Doc, name: string, put: Doc): Doc {
    match d
    case End(_) => d
    case Cut(t, l, r) =>
      if l == name then Prepend(t, Append(put, Fill(r, name, put))) else Cut(t, l, Fill(r, name, put))
  }

  // No text between a slot of another name and the next slot reads as the name.
  predicate Sharp(d: Doc, name: string) {
    d.Cut? ==> Sharp(d.rest, name) && (d.rest.Cut? && d.name != name ==> d.rest.text != name)
  }

  lemma PrependFlat(t: string, d: Doc, id: string)
    ensures Flat(Prepend(t, d), id) == t + Flat(d, id) && Labels(Prepend(t, d)) == Labels(d)
    ensures Plain(t) && PlainDoc(d) ==> PlainDoc(Prepend(t, d))
  {
    match d {
      case End(_) =>
      case Cut(u, l, r) => assert (t + u) + (Placeholder(id, l) + Flat(r, id)) == t
          + (u + (Placeholder(id, l) + Flat(r, id)));
    }
  }

  lemma {:induction false} AppendFlat(a: Doc, b: Doc, id: string)
    ensures Flat(Append(a, b), id) == Flat(a, id) + Flat(b, id) && Labels(Append(a, b)) == Labels(a) + Labels(b)
    ensures PlainDoc(a) && PlainDoc(b) ==> PlainDoc(Append(a, b))
  {
    match a {
      case End(t) => PrependFlat(t, b, id);
      case Cut(t, l, r) =>
        AppendFlat(r, b, id);
        assert t + (Placeholder(id, l) + (Flat(r, id) + Flat(b, id))) == t + (Placeholder(id, l) + Flat(r, id))
            + Flat(b, id);
    }
  }

  // ----- matching -----

  // A plain text before a NUL is determined by what it is a prefix of.
  lemma HeadUnique(a: string, b: string, x: string, y: string)
    requires Plain(a) && Plain(b) && a + [NUL] + x <= b + [NUL] + y
    ensures a == b
  {
    var s, t := a + [NUL] + x, b + [NUL] + y;
    assert s[|a|] == NUL && t[|b|] == NUL;
    forall i | 0 <= i < |a| && |a| == |b| ensures a[i] == b[i] { assert s[i] == t[i]; }
  }

  lemma PlaceholderParts(id: string, name: string)
    ensures Placeholder(id, name) == SEP + (id + SEP + (name + SEP + (id + SEP)))
  {
  }

  // What a match at a separator says of the two plain runs after it.
  lemma MatchRuns(id: string, name: string, a: string, b: string, tail: string)
    requires Plain(id) && Plain(name) && Plain(a) && Plain(b)
    requires Placeholder(id, name) <= SEP + (a + SEP + (b + SEP + tail))
    ensures a == id && b == name
  {
    PlaceholderParts(id, name);
    Strip(SEP, id + SEP + (name + SEP + (id + SEP)), a + SEP + (b + SEP + tail));
    HeadOf(id, name + SEP + (id + SEP), a, b + SEP + tail);
    HeadOf(name, id + SEP, b, tail);
  }

  // A match needs four separators.
  lemma MatchNeedsRuns(id: string, name: string, a: string, last: string)
    requires Plain(id) && Plain(name) && Plain(a) && Plain(last)
    ensures !(Placeholder(id, name) <= SEP + last)
    ensures !(Placeholder(id, name) <= SEP + (a + SEP + last))
  {
    var x, y := name + SEP + (id + SEP), id + SEP + (name + SEP + (id + SEP));
    assert x[|name|] == NUL && y[|id|] == NUL;
    PlaceholderParts(id, name);
    if Placeholder(id, name) <= SEP + last { Strip(SEP, y, last); }
    if Placeholder(id, name) <= SEP + (a + SEP + last) {
      Strip(SEP, y, a + SEP + last);
      HeadOf(id, x, a, last);
    }
  }

  lemma Strip(p: string, x: string, y: string)
    requires p + x <= p + y
    ensures x <= y
  {
    assert (p + x)[|p|..] == x && (p + y)[|p|..] == y;
    forall i | 0 <= i < |x| ensures x[i] == y[i] { assert (p + x)[|p| + i] == (p + y)[|p| + i]; }
  }

  // Peeling one run and its separator.
  lemma HeadOf(a: string, x: string, b: string, y: string)
    requires Plain(a) && Plain(b) && a + SEP + x <= b + SEP + y
    ensures a == b && x <= y
  {
    assert a + SEP + x == a + [NUL] + (['\U{1}'] + x) && b + SEP + y == b + [NUL] + (['\U{1}'] + y);
    HeadUnique(a, b, ['\U{1}'] + x, ['\U{1}'] + y);
    Strip(a + SEP, x, y);
  }

  // ----- replacing -----

  lemma {:induction false} SkipPlain(t: string, rest: string, pat: string, put: string)
    requires Plain(t) && pat != "" && pat[0] == NUL
    ensures ReplaceAll(t + rest, pat, put) == t + ReplaceAll(rest, pat, put)
  {
    if t == "" {
      assert t + rest == rest;
    } else {
      var s := t + rest;
      assert s[1..] == t[1..] + rest;
      SkipPlain(t[1..], rest, pat, put);
      if |s| >= |pat| {
        assert s[..|pat|][0] == t[0] != NUL;
        assert ReplaceAll(s, pat, put) == [t[0]] + (t[1..] + ReplaceAll(rest, pat, put));
      } else {
        assert ReplaceAll(rest, pat, put) == rest;
      }
    }
  }

  lemma SkipSep(rest: string, pat: string, put: string)
    requires pat != "" && pat[0] == NUL && !(pat <= SEP + rest)
    ensures ReplaceAll(SEP + rest, pat, put) == SEP + ReplaceAll(rest, pat, put)
  {
    assert (SEP + rest)[1..] == ['\U{1}'] + rest;
    SkipPlain(['\U{1}'], rest, pat, put);
    assert SEP + ReplaceAll(rest, pat, put) == [NUL] + (['\U{1}'] + ReplaceAll(rest, pat, put));
  }

  // A separator and a plain run after it, when the placeholder does not start there.
  lemma SkipRun(run: string, rest: string, pat: string, put: string)
    requires Plain(run) && pat != "" && pat[0] == NUL && !(pat <= SEP + (run + rest))
    ensures ReplaceAll(SEP + (run + rest), pat, put) == SEP + (run + ReplaceAll(rest, pat, put))
  {
    SkipSep(run + rest, pat, put);
    SkipPlain(run, rest, pat, put);
  }

  lemma SlotParts(id: string, l: string, rest: string)
    ensures Placeholder(id, l) + rest == SEP + (id + (SEP + (l + (SEP + (id + (SEP + rest))))))
  {
  }

  // No match of another name's placeholder starts in the opening token of a slot.
  lemma NoMatchOpening(id: string, name: string, l: string, f: string)
    requires Plain(id) && Plain(name) && Plain(l) && l != name
    ensures !(Placeholder(id, name) <= SEP + (id + (SEP + (l + (SEP + (id + (SEP + f)))))))
    ensures !(Placeholder(id, name) <= SEP + (l + (SEP + (id + (SEP + f)))))
  {
    var pat, g := Placeholder(id, name), id + (SEP + f);
    assert id + (SEP + (l + (SEP + g))) == id + SEP + (l + SEP + g);
    assert l + (SEP + g) == l + SEP + (id + SEP + f);
    if pat <= SEP + (id + SEP + (l + SEP + g)) { MatchRuns(id, name, id, l, g); }
    if pat <= SEP + (l + SEP + (id + SEP + f)) { MatchRuns(id, name, l, id, f); }
  }

  // Nor in its closing token, unless the text up to the next slot reads as the name.
  lemma NoMatchClosing(id: string, name: string, r: Doc)
    requires Plain(id) && Plain(name) && PlainDoc(r) && (r.Cut? ==> r.text != name)
    ensures !(Placeholder(id, name) <= SEP + (id + (SEP + Flat(r, id))))
    ensures !(Placeholder(id, name) <= SEP + Flat(r, id))
  {
    match r {
      case End(t) =>
        assert id + (SEP + t) == id + SEP + t;
        MatchNeedsRuns(id, name, id, t);
      case Cut(t, l, rest) =>
        var g := l + (SEP + (id + (SEP + Flat(rest, id))));
        SlotParts(id, l, Flat(rest, id));
        NoMatchText(id, name, t, g);
    }
  }

  lemma NoMatchText(id: string, name: string, t: string, g: string)
    requires Plain(id) && Plain(name) && Plain(t) && t != name
    ensures var f := t + (SEP + (id + (SEP + g)));
      !(Placeholder(id, name) <= SEP + (id + (SEP + f))) && !(Placeholder(id, name) <= SEP + f)
  {
    var pat, f := Placeholder(id, name), t + (SEP + (id + (SEP + g)));
    assert id + (SEP + f) == id + SEP + (t + SEP + (id + (SEP + g)));
    assert f == t + SEP + (id + SEP + g);
    if pat <= SEP + (id + SEP + (t + SEP + (id + (SEP + g)))) { MatchRuns(id, name, id, t, id + (SEP + g)); }
    if pat <= SEP + (t + SEP + (id + SEP + g)) { MatchRuns(id, name, t, id, g); }
  }

  lemma SkipSlot(id: string, name: string, l: string, r: Doc, put: string)
    requires Plain(id) && Plain(name) && Plain(l) && PlainDoc(r) && l != name && (r.Cut? ==> r.text != name)
    ensures ReplaceAll(Placeholder(id, l) + Flat(r, id), Placeholder(id, name), put)
         == Placeholder(id, l) + ReplaceAll(Flat(r, id), Placeholder(id, name), put)
  {
    var f, pat := Flat(r, id), Placeholder(id, name);
    NoMatchOpening(id, name, l, f);
    NoMatchClosing(id, name, r);
    SlotParts(id, l, f);
    SlotParts(id, l, ReplaceAll(f, pat, put));
    SkipRun(id, SEP + (l + (SEP + (id + (SEP + f)))), pat, put);
    SkipRun(l, SEP + (id + (SEP + f)), pat, put);
    SkipRun(id, SEP + f, pat, put);
    SkipSep(f, pat, put);
  }

  lemma TakeSlot(id: string, name: string, rest: string, put: string)
    ensures ReplaceAll(Placeholder(id, name) + rest, Placeholder(id, name), put) == put
        + ReplaceAll(rest, Placeholder(id, name), put)
  {
    var pat := Placeholder(id, name);
    assert (pat + rest)[..|pat|] == pat && (pat + rest)[|pat|..] == rest;
  }

  // Replacing one placeholder over the whole buffer fills exactly its slots, whatever the content.
  lemma {:induction false} ReplaceFills(d: Doc, id: string, name: string, put: Doc)
    requires PlainDoc(d) && Plain(id) && Plain(name) && Sharp(d, name)
    ensures ReplaceAll(Flat(d, id), Placeholder(id, name), Flat(put, id)) == Flat(Fill(d, name, put), id)
  {
    var pat, text := Placeholder(id, name), Flat(put, id);
    match d {
      case End(t) =>
        assert t + "" == t;
        SkipPlain(t, "", pat, text);
      case Cut(t, l, r) =>
        SkipPlain(t, Placeholder(id, l) + Flat(r, id), pat, text);
        ReplaceFills(r, id, name, put);
        if l == name {
          TakeSlot(id, name, Flat(r, id), text);
          AppendFlat(put, Fill(r, name, put), id);
          PrependFlat(t, Append(put, Fill(r, name, put)), id);
        } else {
          SkipSlot(id, name, l, r, text);
        }
    }
  }

  predicate Named(d: Doc) { d.Cut? ==> d.name != "" && Named(d.rest) }

  // With a plain content that condition is exact: where a text reads as the name, replacing tears
  // the two placeholders around it apart.
  lemma {:induction false} ReplaceExact(d: Doc, id: string, name: string, put: string)
    requires PlainDoc(d) && Named(d) && Plain(id) && Plain(name) && Plain(put)
    ensures ReplaceAll(Flat(d, id), Placeholder(id, name), put) == Flat(Fill(d, name, End(put)), id) <==> Sharp(d, name)
  {
    if Sharp(d, name) {
      ReplaceFills(d, id, name, End(put));
    } else {
      var pat, r := Placeholder(id, name), d.rest;
      SkipPlain(d.text, Placeholder(id, d.name) + Flat(r, id), pat, put);
      if d.name != name && r.Cut? && r.text == name {
        var torn := ReplaceAll(Placeholder(id, d.name) + Flat(r, id), pat, put);
        var kept := Flat(Fill(r, name, End(put)), id);
        TearSlots(id, name, d.name, r, put, kept);
        if d.text + torn == d.text + (Placeholder(id, d.name) + kept) {
          Cancel(d.text, torn, Placeholder(id, d.name) + kept);
        }
      } else {
        ReplaceExact(r, id, name, put);
        var was, now := ReplaceAll(Flat(r, id), pat, put), Flat(Fill(r, name, End(put)), id);
        if d.name == name {
          TakeSlot(id, name, Flat(r, id), put);
          AppendFlat(End(put), Fill(r, name, End(put)), id);
          PrependFlat(d.text, Append(End(put), Fill(r, name, End(put))), id);
          if d.text + (put + was) == d.text + (put + now) {
            Cancel(d.text, put + was, put + now); Cancel(put, was, now);
          }
        } else {
          SkipSlot(id, name, d.name, r, put);
          var p := Placeholder(id, d.name);
          if d.text + (p + was) == d.text + (p + now) { Cancel(d.text, p + was, p + now); Cancel(p, was, now); }
        }
      }
    }
  }

  lemma Cancel(p: string, x: string, y: string)
    requires p + x == p + y
    ensures x == y
  {
    assert (p + x)[|p|..] == x && (p + y)[|p|..] == y;
  }

  // The closing token of one slot, a text that reads as the name, and the opening token of the next
  // slot are taken for the name's placeholder.
  lemma TornText(id: string, name: string, l: string, next: string, f: string, put: string)
    requires Plain(id) && Plain(name) && Plain(l) && l != name && Plain(next)
    ensures ReplaceAll(SEP + (id + (SEP + (l + (Placeholder(id, name) + (next + f))))), Placeholder(id, name), put)
         == SEP + (id + (SEP + (l + (put + (next + ReplaceAll(f, Placeholder(id, name), put))))))
  {
    var pat, tail := Placeholder(id, name), next + f;
    SlotParts(id, name, tail);
    NoMatchOpening(id, name, l, name + (SEP + (id + (SEP + tail))));
    SkipRun(id, SEP + (l + (pat + tail)), pat, put);
    SkipRun(l, pat + tail, pat, put);
    TakeSlot(id, name, tail, put);
    SkipPlain(next, f, pat, put);
  }

  lemma TornParts(id: string, name: string, l: string, next: string, f: string)
    ensures Placeholder(id, l) + (name + (Placeholder(id, next) + f))
         == SEP + (id + (SEP + (l + (Placeholder(id, name) + (next + (SEP + (id + (SEP + f))))))))
  {
    SlotParts(id, l, name + (Placeholder(id, next) + f));
    SlotParts(id, next, f);
    SlotParts(id, name, next + (SEP + (id + (SEP + f))));
  }

  lemma TearSlots(id: string, name: string, l: string, r: Doc, put: string, kept: string)
    requires Plain(id) && Plain(name) && Plain(l) && l != name && PlainDoc(r) && Plain(put)
    requires r.Cut? && r.text == name && r.name != ""
    ensures ReplaceAll(Placeholder(id, l) + Flat(r, id), Placeholder(id, name), put) != Placeholder(id, l) + kept
  {
    var f := SEP + (id + (SEP + Flat(r.rest, id)));
    TornParts(id, name, l, r.name, Flat(r.rest, id));
    TornText(id, name, l, r.name, f, put);
    var rest := ReplaceAll(f, Placeholder(id, name), put);
    SlotParts(id, l, kept);
    TornDiffers(SEP + (id + (SEP + l)), put, r.name, rest, id + (SEP + kept));
    Regroup(id, l, put + (r.name + rest));
    Regroup(id, l, SEP + (id + (SEP + kept)));
  }

  lemma Regroup(id: string, l: string, x: string)
    ensures SEP + (id + (SEP + (l + x))) == (SEP + (id + (SEP + l))) + x
  {
  }

  lemma TornDiffers(head: string, put: string, next: string, rest: string, x: string)
    requires Plain(put) && Plain(next) && next != ""
    ensures head + (put + (next + rest)) != head + (SEP + x)
  {
    assert (put + (next + rest))[0] == (put + next)[0] != NUL;
    if head + (put + (next + rest)) == head + (SEP + x) { Cancel(head, put + (next + rest), SEP + x); }
  }

  // ----- slot buffers -----

  // The buffers of a render in creation order.
  type Buffers = seq<(string, string)>

  // The same buffers as documents: a contribution may itself hold deferred slots.
  type DocBuffers = seq<(string, Doc)>

  function BufferOf(slots: Buffers, name: string): string {
    if slots == [] then ""
    else if slots[|slots| - 1].0 == name then slots[|slots| - 1].1
    else BufferOf(slots[..|slots| - 1], name)
  }

  // A contribution appends to its buffer, creating it first.
  function Contribute(slots: Buffers, name: string, text: string): Buffers {
    if slots == [] then [(name, text)]
    else
      var init, last := slots[..|slots| - 1], slots[|slots| - 1];
      if last.0 == name then init + [(name, last.1 + text)] else Contribute(init, name, text) + [last]
  }

  function DocOf(bs: DocBuffers, name: string): Doc {
    if bs == [] then End("")
    else if bs[|bs| - 1].0 == name then bs[|bs| - 1].1
    else DocOf(bs[..|bs| - 1], name)
  }

  function ContributeDoc(bs: DocBuffers, name: string, d: Doc): DocBuffers {
    if bs == [] then [(name, d)]
    else
      var init, last := bs[..|bs| - 1], bs[|bs| - 1];
      if last.0 == name then init + [(name, Append(last.1, d))] else ContributeDoc(init, name, d) + [last]
  }

  function FlatAll(bs: DocBuffers, id: string): Buffers {
    if bs == [] then [] else FlatAll(bs[..|bs| - 1], id) + [(bs[|bs| - 1].0, Flat(bs[|bs| - 1].1, id))]
  }

  ghost predicate PlainAll(bs: DocBuffers) { forall n :: PlainDoc(DocOf(bs, n)) }

  lemma {:induction false} BufferFlat(bs: DocBuffers, id: string, name: string)
    ensures BufferOf(FlatAll(bs, id), name) == Flat(DocOf(bs, name), id)
  {
    if bs != [] {
      BufferFlat(bs[..|bs| - 1], id, name);
      assert FlatAll(bs, id)[..|FlatAll(bs, id)| - 1] == FlatAll(bs[..|bs| - 1], id);
    }
  }

  lemma {:induction false} ContributeFlat(bs: DocBuffers, name: string, d: Doc, id: string)
    ensures FlatAll(ContributeDoc(bs, name, d), id) == Contribute(FlatAll(bs, id), name, Flat(d, id))
  {
    if bs != [] {
      var init, last := bs[..|bs| - 1], bs[|bs| - 1];
      var rest := if last.0 == name then init else ContributeDoc(init, name, d);
      var r := ContributeDoc(bs, name, d);
      ContributeFlat(init, name, d, id);
      AppendFlat(last.1, d, id);
      assert r[..|r| - 1] == rest;
      assert FlatAll(bs, id)[..|FlatAll(bs, id)| - 1] == FlatAll(init, id);
    } else {
      assert [(name, d)][..0] == [];
    }
  }

  // ----- resolving -----

  // Every reserved label replaced in turn over the finished output.
  function ResolveFrom(out: string, names: seq<string>, slots: Buffers, id: string): string
    decreases |names|
  {
    if names == [] then out
    else ResolveFrom(ReplaceAll(out, Placeholder(id, names[0]), BufferOf(slots, names[0])), names[1..], slots, id)
  }

  // The same passes on the document.
  function ResolveDoc(d: Doc, names: seq<string>, bs: DocBuffers): Doc
    decreases |names|
  {
    if names == [] then d else ResolveDoc(Fill(d, names[0], DocOf(bs, names[0])), names[1..], bs)
  }

  // Every pass meets no text that reads as its name.
  predicate Sharply(d: Doc, names: seq<string>, bs: DocBuffers)
    decreases |names|
  {
    names == [] || (Sharp(d, names[0]) && Sharply(Fill(d, names[0], DocOf(bs, names[0])), names[1..], bs))
  }

  // Every pass over the output fills the slots of its name.
  ghost predicate Filling(d: Doc, names: seq<string>, bs: DocBuffers, id: string)
    decreases |names|
  {
    names == []
    || (var next := Fill(d, names[0], DocOf(bs, names[0]));
        && ReplaceAll(Flat(d, id), Placeholder(id, names[0]), Flat(DocOf(bs, names[0]), id)) == Flat(next, id)
        && Filling(next, names[1..], bs, id))
  }

  lemma {:induction false} FillPlain(d: Doc, name: string, put: Doc)
    requires PlainDoc(d) && PlainDoc(put)
    ensures PlainDoc(Fill(d, name, put))
    ensures Labels(Fill(d, name, put)) == Labels(d) - {name} + (if name in Labels(d) then Labels(put) else {})
  {
    if d.Cut? {
      var rest := Fill(d.rest, name, put);
      FillPlain(d.rest, name, put);
      AppendFlat(put, rest, "");
      PrependFlat(d.text, Append(put, rest), "");
    }
  }

  lemma {:induction false} FillingResolves(d: Doc, names: seq<string>, bs: DocBuffers, id: string)
    requires Filling(d, names, bs, id)
    ensures ResolveFrom(Flat(d, id), names, FlatAll(bs, id), id) == Flat(ResolveDoc(d, names, bs), id)
    decreases |names|
  {
    if names != [] {
      BufferFlat(bs, id, names[0]);
      FillingResolves(Fill(d, names[0], DocOf(bs, names[0])), names[1..], bs, id);
    }
  }

  // Sharp passes fill, whatever the contributions hold.
  lemma {:induction false} SharpFilling(d: Doc, names: seq<string>, bs: DocBuffers, id: string)
    requires PlainDoc(d) && Plain(id) && PlainAll(bs) && (forall n :: n in names ==> Plain(n)) && Sharply(d, names, bs)
    ensures Filling(d, names, bs, id)
    decreases |names|
  {
    if names != [] {
      var put := DocOf(bs, names[0]);
      ReplaceFills(d, id, names[0], put);
      FillPlain(d, names[0], put);
      SharpFilling(Fill(d, names[0], put), names[1..], bs, id);
    }
  }

  // No contribution holds a slot.
  ghost predicate Inert(bs: DocBuffers) { forall n :: DocOf(bs, n).End? }

  lemma {:induction false} FillNamed(d: Doc, name: string, put: string)
    requires Named(d)
    ensures Named(Fill(d, name, End(put)))
  {
    if d.Cut? { FillNamed(d.rest, name, put); }
  }

  // Without slots inside contributions the condition is exact: the passes fill exactly when they
  // are sharp.
  lemma {:induction false} SharpExact(d: Doc, names: seq<string>, bs: DocBuffers, id: string)
    requires PlainDoc(d) && Named(d) && Plain(id) && PlainAll(bs) && Inert(bs) && forall n :: n in names ==> Plain(n)
    ensures Filling(d, names, bs, id) <==> Sharply(d, names, bs)
    decreases |names|
  {
    if names != [] {
      var put := DocOf(bs, names[0]);
      ReplaceExact(d, id, names[0], put.text);
      FillPlain(d, names[0], put);
      FillNamed(d, names[0], put.text);
      SharpExact(Fill(d, names[0], put), names[1..], bs, id);
    }
  }

  // ----- completeness -----

  // The labels standing after a pass over name: its own go, those its content holds come.
  function Next(labels: set<string>, name: string, bs: DocBuffers): set<string> {
    labels - {name} + (if name in labels then Labels(DocOf(bs, name)) else {})
  }

  // The labels of slots still unresolved after the passes over names.
  function Left(labels: set<string>, names: seq<string>, bs: DocBuffers): set<string>
    decreases |names|
  {
    if names == [] then labels else Left(Next(labels, names[0], bs), names[1..], bs)
  }

  // A pass resolves every slot standing at that moment, so the passes resolve every slot exactly
  // when no label is left.
  lemma {:induction false} LeftExact(d: Doc, names: seq<string>, bs: DocBuffers)
    requires PlainDoc(d) && PlainAll(bs)
    ensures Labels(ResolveDoc(d, names, bs)) == Left(Labels(d), names, bs)
    decreases |names|
  {
    if names != [] {
      FillPlain(d, names[0], DocOf(bs, names[0]));
      assert Labels(Fill(d, names[0], DocOf(bs, names[0]))) == Next(Labels(d), names[0], bs);
      LeftExact(Fill(d, names[0], DocOf(bs, names[0])), names[1..], bs);
    }
  }

  // Every slot a pass brings in is reserved after that pass.  A pass whose name no slot holds at
  // that moment brings nothing in.
  predicate Later(labels: set<string>, names: seq<string>, bs: DocBuffers)
    decreases |names|
  {
    names == []
    || ((names[0] in labels ==> Reserved(Labels(DocOf(bs, names[0])), names[1..]))
        && Later(Next(labels, names[0], bs), names[1..], bs))
  }

  predicate Reserved(labels: set<string>, names: seq<string>) { forall l | l in labels :: l in names }

  lemma ReservedNext(labels: set<string>, names: seq<string>, bs: DocBuffers)
    requires names != [] && Later(labels, names, bs) && Reserved(labels, names)
    ensures Reserved(Next(labels, names[0], bs), names[1..])
  {
  }

  // A label that is not reserved any more stays.
  lemma {:induction false} LeftKeeps(labels: set<string>, names: seq<string>, bs: DocBuffers, l: string)
    requires l in labels && l !in names
    ensures l in Left(labels, names, bs)
    decreases |names|
  {
    if names != [] { LeftKeeps(Next(labels, names[0], bs), names[1..], bs, l); }
  }

  // With every standing slot reserved, as in every render, the passes leave no slot exactly when each
  // brings in only slots reserved after it.
  lemma {:induction false} LaterExact(labels: set<string>, names: seq<string>, bs: DocBuffers)
    requires Reserved(labels, names)
    ensures Left(labels, names, bs) == {} <==> Later(labels, names, bs)
    decreases |names|
  {
    if names != [] {
      var next := Next(labels, names[0], bs);
      if Reserved(next, names[1..]) {
        LaterExact(next, names[1..], bs);
      } else {
        var l :| l in next && l !in names[1..];
        LeftKeeps(next, names[1..], bs, l);
      }
    } else {
      assert forall l :: l !in labels;
    }
  }

  // ----- splicing -----

  // The document with every slot replaced by its content, contents within contents included.
  function Splice(d: Doc, bs: DocBuffers, fuel: nat): string
    decreases fuel, d
  {
    match d
    case End(t) => t
    case Cut(t, l, r) => t + (if fuel == 0 then "" else Splice(DocOf(bs, l), bs, fuel - 1)) + Splice(r, bs, fuel)
  }

  lemma PrependSplice(t: string, d: Doc, bs: DocBuffers, fuel: nat)
    ensures Splice(Prepend(t, d), bs, fuel) == t + Splice(d, bs, fuel)
  {
    if d.Cut? {
      var c := if fuel == 0 then "" else Splice(DocOf(bs, d.name), bs, fuel - 1);
      assert (t + d.text) + c + Splice(d.rest, bs, fuel) == t + (d.text + c + Splice(d.rest, bs, fuel));
    }
  }

  lemma {:induction false} AppendSplice(a: Doc, b: Doc, bs: DocBuffers, fuel: nat)
    ensures Splice(Append(a, b), bs, fuel) == Splice(a, bs, fuel) + Splice(b, bs, fuel)
  {
    match a {
      case End(t) => PrependSplice(t, b, bs, fuel);
      case Cut(t, l, r) =>
        AppendSplice(r, b, bs, fuel);
        var c := if fuel == 0 then "" else Splice(DocOf(bs, l), bs, fuel - 1);
        assert t + c + (Splice(r, bs, fuel) + Splice(b, bs, fuel)) == (t + c + Splice(r, bs, fuel))
            + Splice(b, bs, fuel);
    }
  }

  // A standing label has its pass; what its content holds stands after that pass, and is reserved
  // there.
  lemma {:induction false} LaterFrom(labels: set<string>, names: seq<string>, bs: DocBuffers, l: string)
    returns (next: set<string>, rest: seq<string>)
    requires Later(labels, names, bs) && Reserved(labels, names) && l in labels
    ensures |rest| < |names| && Later(next, rest, bs) && Reserved(next, rest) && Labels(DocOf(bs, l)) <= next
    decreases |names|
  {
    next, rest := Next(labels, names[0], bs), names[1..];
    ReservedNext(labels, names, bs);
    if names[0] != l { next, rest := LaterFrom(next, rest, bs, l); }
  }

  // Any depth that covers the reserved labels gives the same splicing.
  lemma {:induction false} SpliceStable(d: Doc, labels: set<string>, names: seq<string>, bs: DocBuffers, a: nat, b: nat)
    requires Later(labels, names, bs) && Reserved(labels, names) && Labels(d) <= labels && |names| <= a && |names| <= b
    ensures Splice(d, bs, a) == Splice(d, bs, b)
    decreases |names|, d
  {
    if d.Cut? {
      assert d.name in Labels(d) && Labels(d.rest) <= Labels(d);
      var next, rest := LaterFrom(labels, names, bs, d.name);
      SpliceStable(DocOf(bs, d.name), next, rest, bs, a - 1, b - 1);
      SpliceStable(d.rest, labels, names, bs, a, b);
    }
  }

  // Filling the first reserved label keeps the splicing.
  lemma {:induction false} FillSplices(d: Doc, labels: set<string>, names: seq<string>, bs: DocBuffers, fuel: nat)
    requires Later(labels, names, bs) && Reserved(labels, names) && Labels(d) <= labels && 0 < |names| <= fuel
    ensures Splice(Fill(d, names[0], DocOf(bs, names[0])), bs, fuel) == Splice(d, bs, fuel)
    decreases d
  {
    if d.Cut? {
      var put := DocOf(bs, names[0]);
      assert d.name in Labels(d) && Labels(d.rest) <= Labels(d);
      FillSplices(d.rest, labels, names, bs, fuel);
      if d.name == names[0] {
        var rest := Fill(d.rest, names[0], put);
        AppendSplice(put, rest, bs, fuel);
        PrependSplice(d.text, Append(put, rest), bs, fuel);
        ReservedNext(labels, names, bs);
        SpliceStable(put, Next(labels, names[0], bs), names[1..], bs, fuel, fuel - 1);
        assert d.text + (Splice(put, bs, fuel) + Splice(rest, bs, fuel)) == d.text + Splice(put, bs, fuel)
            + Splice(rest, bs, fuel);
      }
    }
  }

  lemma {:induction false} ResolveDocSplices(d: Doc, names: seq<string>, bs: DocBuffers, fuel: nat)
    requires PlainDoc(d) && PlainAll(bs) && Later(Labels(d), names, bs) && Reserved(Labels(d), names) && |names| <= fuel
    ensures ResolveDoc(d, names, bs) == End(Splice(d, bs, fuel))
    decreases |names|
  {
    if names != [] {
      FillSplices(d, Labels(d), names, bs, fuel);
      FillPlain(d, names[0], DocOf(bs, names[0]));
      assert Labels(Fill(d, names[0], DocOf(bs, names[0]))) == Next(Labels(d), names[0], bs);
      ReservedNext(Labels(d), names, bs);
      ResolveDocSplices(Fill(d, names[0], DocOf(bs, names[0])), names[1..], bs, fuel);
    } else {
      NoLabels(d);
    }
  }

  lemma NoLabels(d: Doc)
    requires Reserved(Labels(d), [])
    ensures d.End?
  {
    assert Labels(d) == {};
  }

  lemma {:induction false} ResolveDocPlain(d: Doc, names: seq<string>, bs: DocBuffers)
    requires PlainDoc(d) && PlainAll(bs)
    ensures PlainDoc(ResolveDoc(d, names, bs))
    decreases |names|
  {
    if names != [] {
      FillPlain(d, names[0], DocOf(bs, names[0]));
      ResolveDocPlain(Fill(d, names[0], DocOf(bs, names[0])), names[1..], bs);
    }
  }

  lemma {:induction false} SplicePlain(d: Doc, bs: DocBuffers, fuel: nat)
    requires PlainDoc(d) && PlainAll(bs)
    ensures Plain(Splice(d, bs, fuel))
    decreases fuel, d
  {
    if d.Cut? {
      if fuel > 0 { SplicePlain(DocOf(bs, d.name), bs, fuel - 1); }
      SplicePlain(d.rest, bs, fuel);
    }
  }

  // A slot left in a text shows.
  lemma FlatMarked(d: Doc, id: string)
    requires d.Cut?
    ensures !Plain(Flat(d, id))
  {
    var f := Flat(d, id);
    assert f[|d.text|] == Placeholder(id, d.name)[0] == NUL;
  }

  // Where no pass tears a text, the passes over a finished output splice every slot's final content
  // in place exactly when each pass brings in only slots reserved after it.
  lemma ResolveSplices(d: Doc, names: seq<string>, bs: DocBuffers, id: string)
    requires PlainDoc(d) && Plain(id) && PlainAll(bs) && (forall n :: n in names ==> Plain(n))
    requires Sharply(d, names, bs) && Reserved(Labels(d), names)
    ensures ResolveFrom(Flat(d, id), names, FlatAll(bs, id), id) == Splice(d, bs, |names|)
      <==> Later(Labels(d), names, bs)
  {
    SharpFilling(d, names, bs, id);
    FillingResolves(d, names, bs, id);
    if Later(Labels(d), names, bs) {
      ResolveDocSplices(d, names, bs, |names|);
    } else {
      LaterExact(Labels(d), names, bs);
      LeftExact(d, names, bs);
      FlatMarked(ResolveDoc(d, names, bs), id);
      SplicePlain(d, bs, |names|);
    }
  }

  // ----- any order -----

  // The runs from one slot to each later one, the slots between filled in, read as no other name.
  predicate Runs(acc: string, d: Doc, names: set<string>, bs: DocBuffers)
    decreases d
  {
    d.Cut? ==> acc + d.text !in names && Runs(acc + d.text + DocOf(bs, d.name).text, d.rest, names, bs)
  }

  predicate Clear(d: Doc, names: set<string>, bs: DocBuffers) {
    d.Cut? ==> Runs("", d.rest, names - {d.name}, bs) && Clear(d.rest, names, bs)
  }

  lemma {:induction false} ClearSharp(d: Doc, names: set<string>, bs: DocBuffers, name: string)
    requires Clear(d, names, bs) && name in names
    ensures Sharp(d, name)
  {
    if d.Cut? {
      ClearSharp(d.rest, names, bs, name);
      assert "" + d.rest.text == d.rest.text;
    }
  }

  lemma RunsPrepend(acc: string, x: string, d: Doc, names: set<string>, bs: DocBuffers)
    ensures Runs(acc, Prepend(x, d), names, bs) == Runs(acc + x, d, names, bs)
  {
    assert acc + (x + d.text) == acc + x + d.text;
  }

  lemma {:induction false} FillRuns(acc: string, d: Doc, names: set<string>, bs: DocBuffers, name: string)
    requires Runs(acc, d, names, bs) && DocOf(bs, name).End?
    ensures Runs(acc, Fill(d, name, DocOf(bs, name)), names, bs)
    decreases d
  {
    if d.Cut? {
      var c := DocOf(bs, name);
      FillRuns(acc + d.text + DocOf(bs, d.name).text, d.rest, names, bs, name);
      if d.name == name {
        RunsPrepend(acc + d.text, c.text, Fill(d.rest, name, c), names, bs);
        RunsPrepend(acc, d.text, Prepend(c.text, Fill(d.rest, name, c)), names, bs);
      }
    }
  }

  lemma {:induction false} FillClear(d: Doc, names: set<string>, bs: DocBuffers, name: string)
    requires Clear(d, names, bs) && DocOf(bs, name).End?
    ensures Clear(Fill(d, name, DocOf(bs, name)), names, bs)
  {
    if d.Cut? {
      FillClear(d.rest, names, bs, name);
      FillRuns("", d.rest, names - {d.name}, bs, name);
    }
  }

  lemma {:induction false} InertLater(labels: set<string>, names: seq<string>, bs: DocBuffers)
    requires Inert(bs)
    ensures Later(labels, names, bs)
    decreases |names|
  {
    if names != [] { InertLater(Next(labels, names[0], bs), names[1..], bs); }
  }

  // A clear document resolves sharply in whatever order, and however often, its labels are listed.
  lemma {:induction false} ClearSharply(d: Doc, names: seq<string>, all: set<string>, bs: DocBuffers)
    requires Clear(d, all, bs) && Inert(bs) && forall n :: n in names ==> n in all
    ensures Sharply(d, names, bs) && Later(Labels(d), names, bs)
    decreases |names|
  {
    InertLater(Labels(d), names, bs);
    if names != [] {
      ClearSharp(d, all, bs, names[0]);
      FillClear(d, all, bs, names[0]);
      ClearSharply(Fill(d, names[0], DocOf(bs, names[0])), names[1..], all, bs);
    }
  }

  // ----- what the conditions exclude -----

  // Text between two slots that reads as a third yielded name is taken for its slot.
  lemma AmbiguousText(id: string, put: string)
    requires Plain(id) && Plain(put)
    ensures var d := Cut("", "a", Cut("b", "c", End("")));
      Fill(d, "b", End(put)) == d && ReplaceAll(Flat(d, id), Placeholder(id, "b"), put) != Flat(d, id)
  {
    var d := Cut("", "a", Cut("b", "c", End("")));
    assert Fill(d.rest, "b", End(put)) == d.rest;
    assert !Sharp(d, "b");
    ReplaceExact(d, id, "b", put);
  }

  // A slot yielded inside a contribution, its label passed before the contribution's own, is left
  // unresolved.
  lemma YieldInsideProvide(id: string, inner: string)
    requires Plain(id) && Plain(inner)
    ensures var bs := [("x", End(inner)), ("y", Cut("", "x", End("")))];
      && !Later({"y"}, ["x", "y"], bs)
      && ResolveFrom(Flat(Cut("", "y", End("")), id), ["x", "y"], FlatAll(bs, id), id) == Placeholder(id, "x")
  {
    var d, bs := Cut("", "y", End("")), [("x", End(inner)), ("y", Cut("", "x", End("")))];
    var names := ["x", "y"];
    NestedBuffers(inner);
    assert names[1..] == ["y"] && ["y"][1..] == [];
    assert Fill(d, "x", End(inner)) == d && Sharp(d, "x") && Sharp(d, "y") && Sharply(d, ["y"], bs);
    SharpFilling(d, names, bs, id);
    FillingResolves(d, names, bs, id);
    assert ResolveDoc(d, ["y"], bs) == Fill(d, "y", Cut("", "x", End("")));
    assert Next({"y"}, "x", bs) == {"y"} && "x" in Labels(DocOf(bs, "y")) && "x" !in [];
    assert !Later({"y"}, ["y"], bs);
    assert Flat(Cut("", "x", End("")), id) == "" + (Placeholder(id, "x") + "");
  }

  lemma NestedBuffers(inner: string)
    requires Plain(inner)
    ensures var bs := [("x", End(inner)), ("y", Cut("", "x", End("")))];
      DocOf(bs, "x") == End(inner) && DocOf(bs, "y") == Cut("", "x", End("")) && PlainAll(bs)
  {
    var bs, xs := [("x", End(inner)), ("y", Cut("", "x", End("")))], [("x", End(inner))];
    assert bs[..1] == xs && xs[..0] == [];
    assert DocOf(bs, "x") == DocOf(xs, "x");
    forall n ensures PlainDoc(DocOf(bs, n)) { assert DocOf(xs, n) in {End(inner), End("")}; }
  }

  // The same slots with the label reserved before and after its contribution's own are all resolved.
  lemma YieldAgain(inner: string)
    requires Plain(inner)
    ensures var bs := [("x", End(inner)), ("y", Cut("", "x", End("")))];
      Later({"y"}, ["y", "x", "y"], bs) && Left({"y"}, ["y", "x", "y"], bs) == {}
  {
    var bs, names := [("x", End(inner)), ("y", Cut("", "x", End("")))], ["y", "x", "y"];
    NestedBuffers(inner);
    assert names[1..] == ["x", "y"] && ["x", "y"][1..] == ["y"] && ["y"][1..] == [];
    assert Labels(DocOf(bs, "y")) == {"x"} && Labels(DocOf(bs, "x")) == {};
    assert Next({"y"}, "y", bs) == {"x"} && Next({"x"}, "x", bs) == {} && Next({}, "y", bs) == {};
    assert Later({}, ["y"], bs) && Later({"x"}, ["x", "y"], bs);
    LaterExact({"y"}, names, bs);
  }
}
