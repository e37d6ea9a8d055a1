/** Regions that share a key: a store shared by them is invisible exactly when, key by key, they all
    write the same text or all touch the deferred slots. */
module RegionKeys {
  import opened Slots
  import opened CacheRegion

  // The regions of the regions belong as well.
  predicate Nested(regions: set<(string, seq<Act>)>) { forall p <- regions :: Regions(p.1) <= regions }

  predicate Alike(regions: set<(string, seq<Act>)>) {
    forall p <- regions, q <- regions :: p.0 == q.0 ==> VerdictOf(p.1) == VerdictOf(q.1)
  }

  // No render over these regions, begun with an empty store, differs from a render without one.
  ghost predicate Invisible(regions: set<(string, seq<Act>)>) {
    forall acts, id :: Regions(acts) <= regions ==> Same(Stored(acts, START, EMPTY, id).0, Fresh(acts, START, id))
  }

  // ----- alike regions -----

  function Says(regions: set<(string, seq<Act>)>): Verdicts
    requires Alike(regions)
  {
    map p <- regions :: p.0 := VerdictOf(p.1)
  }

  lemma {:induction false} AlikeKeyed(acts: seq<Act>, regions: set<(string, seq<Act>)>)
    requires Alike(regions) && Regions(acts) <= regions
    ensures Keyed(acts, Says(regions))
    decreases acts, 0
  {
    if acts != [] {
      AlikeKeyedAct(acts[0], regions);
      AlikeKeyed(acts[1..], regions);
    }
  }

  lemma {:induction false} AlikeKeyedAct(a: Act, regions: set<(string, seq<Act>)>)
    requires Alike(regions) && RegionsAct(a) <= regions
    ensures KeyedAct(a, Says(regions))
    decreases a, 1
  {
    match a {
      case Provide(_, body) => AlikeKeyed(body, regions);
      case Cached(key, _, body) =>
        assert (key, body) in regions;
        AlikeKeyed(body, regions);
      case _ =>
    }
  }

  // ----- a quiet region that is stored -----

  // The labels a body contributes to.
  function Fed(acts: seq<Act>): set<string>
    decreases acts, 0
  {
    if acts == [] then {} else FedAct(acts[0]) + Fed(acts[1..])
  }

  function FedAct(a: Act): set<string>
    decreases a, 1
  {
    match a
    case Provide(n, body) => {n} + Fed(body)
    case Cached(_, _, body) => Fed(body)
    case _ => {}
  }

  function Open(slots: Buffers): set<string> { set i | 0 <= i < |slots| :: slots[i].0 }

  // Contributing nothing to a buffer that is there changes none.
  lemma {:induction false} ContributeNothing(slots: Buffers, name: string)
    requires name in Open(slots)
    ensures Contribute(slots, name, "") == slots
  {
    var init, last := slots[..|slots| - 1], slots[|slots| - 1];
    assert slots == init + [last] && last.1 + "" == last.1;
    if last.0 != name {
      var i :| 0 <= i < |slots| && slots[i].0 == name;
      assert init[i].0 == name;
      ContributeNothing(init, name);
    }
  }

  lemma {:induction false} ContributeOpens(slots: Buffers, name: string, text: string)
    ensures Open(Contribute(slots, name, text)) == Open(slots) + {name}
  {
    if slots != [] {
      var init, last := slots[..|slots| - 1], slots[|slots| - 1];
      assert slots == init + [last];
      OpenMore(init, last);
      if last.0 == name {
        OpenMore(init, (name, last.1 + text));
      } else {
        ContributeOpens(init, name, text);
        OpenMore(Contribute(init, name, text), last);
      }
    } else {
      OpenMore([], (name, text));
      assert [] + [(name, text)] == [(name, text)];
    }
  }

  lemma OpenMore(slots: Buffers, one: (string, string))
    ensures Open(slots + [one]) == Open(slots) + {one.0}
  {
    forall n | n in Open(slots) ensures n in Open(slots + [one]) {
      var i :| 0 <= i < |slots| && slots[i].0 == n;
      assert (slots + [one])[i].0 == n;
    }
    assert (slots + [one])[|slots|].0 == one.0;
  }

  lemma TextThen(st: Rend, a: string, b: string)
    ensures st.(out := st.out + a).(out := (st.out + a) + b) == st.(out := st.out + (a + b))
  {
    assert (st.out + a) + b == st.out + (a + b);
  }

  // Over open buffers and a sound store a quiet body writes its text and changes nothing else.
  lemma {:induction false} QuietRun(acts: seq<Act>, st: Rend, store: Store, id: string, says: Verdicts)
    requires Quiet(acts) && Keyed(acts, says) && Sound(store, says) && Fed(acts) <= Open(st.slots)
    ensures Stored(acts, st, store, id).0 == st.(out := st.out + TextOf(acts))
    ensures Fresh(acts, st, id) == st.(out := st.out + TextOf(acts))
    decreases acts, 0
  {
    if acts != [] {
      var m := StoredAct(acts[0], st, store, id);
      QuietRunAct(acts[0], st, store, id, says);
      StoredActSound(acts[0], st, store, id, says);
      assert m.0.slots == st.slots;
      QuietRun(acts[1..], m.0, m.1, id, says);
      TextThen(st, TextOfAct(acts[0]), TextOf(acts[1..]));
    } else {
      assert st.out + "" == st.out;
    }
  }

  lemma {:induction false} QuietRunAct(a: Act, st: Rend, store: Store, id: string, says: Verdicts)
    requires QuietAct(a) && KeyedAct(a, says) && Sound(store, says) && FedAct(a) <= Open(st.slots)
    ensures StoredAct(a, st, store, id).0 == st.(out := st.out + TextOfAct(a))
    ensures FreshAct(a, st, id) == st.(out := st.out + TextOfAct(a))
    decreases a, 1
  {
    match a {
      case Emit(_) =>
      case Provide(n, body) =>
        QuietRun(body, st.(out := ""), store, id, says);
        ContributeNothing(st.slots, n);
        assert "" + TextOf(body) == "" && st.out + "" == st.out;
      case Cached(key, _, body) =>
        QuietRun(body, st.(out := ""), store, id, says);
        assert "" + TextOf(body) == TextOf(body);
    }
  }

  // Buffers opened ahead, so that the regions of a quiet body are stored.
  function Opening(names: seq<string>): seq<Act> {
    if names == [] then [] else [Provide(names[0], [])] + Opening(names[1..])
  }

  lemma OpeningAct(name: string, st: Rend, id: string)
    ensures StoredAct(Provide(name, []), st, EMPTY, id) == (st.(slots := Contribute(st.slots, name, "")), EMPTY)
    ensures FreshAct(Provide(name, []), st, id) == st.(slots := Contribute(st.slots, name, ""))
  {
  }

  lemma {:induction false} OpeningRun(names: seq<string>, rest: seq<Act>, st: Rend, id: string) returns (s: Buffers)
    ensures Regions(Opening(names) + rest) == Regions(rest)
    ensures Open(s) == Open(st.slots) + (set n | n in names)
    ensures Stored(Opening(names) + rest, st, EMPTY, id) == Stored(rest, st.(slots := s), EMPTY, id)
    ensures Fresh(Opening(names) + rest, st, id) == Fresh(rest, st.(slots := s), id)
    decreases |names|
  {
    if names == [] {
      s := st.slots;
      assert Opening(names) + rest == rest;
    } else {
      var acts, m := Opening(names) + rest, Contribute(st.slots, names[0], "");
      ContributeOpens(st.slots, names[0], "");
      assert acts[0] == Provide(names[0], []) && acts[1..] == Opening(names[1..]) + rest;
      OpeningAct(names[0], st, id);
      s := OpeningRun(names[1..], rest, st.(slots := m), id);
      assert Regions(acts) == RegionsAct(acts[0]) + Regions(acts[1..]) && RegionsAct(acts[0]) == {};
      assert (set n | n in names) == {names[0]} + (set n | n in names[1..]);
    }
  }

  // ----- a loud region -----

  // A run keeps every buffer's content, and a body that is not quiet adds a label or a content.
  ghost predicate Heard(st: Rend, r: Rend, quiet: bool) {
    && |st.yielded| <= |r.yielded| && (forall l :: |BufferOf(st.slots, l)| <= |BufferOf(r.slots, l)|)
    && (!quiet ==> |st.yielded| < |r.yielded| || exists l :: |BufferOf(st.slots, l)| < |BufferOf(r.slots, l)|)
  }

  lemma HeardThen(a: Rend, b: Rend, c: Rend, p: bool, q: bool)
    requires Heard(a, b, p) && Heard(b, c, q)
    ensures Heard(a, c, p && q)
  {
    if !p && !(|a.yielded| < |b.yielded|) {
      var l :| |BufferOf(a.slots, l)| < |BufferOf(b.slots, l)|;
      assert |BufferOf(b.slots, l)| <= |BufferOf(c.slots, l)|;
    } else if !q && !(|b.yielded| < |c.yielded|) {
      var l :| |BufferOf(b.slots, l)| < |BufferOf(c.slots, l)|;
      assert |BufferOf(a.slots, l)| <= |BufferOf(b.slots, l)|;
    }
  }

  lemma ContributeHeard(st: Rend, r: Rend, name: string, quiet: bool)
    requires Heard(st, r, quiet)
    ensures Heard(st, r.(slots := Contribute(r.slots, name, r.out)), quiet && r.out == "")
  {
    var c := Contribute(r.slots, name, r.out);
    forall l ensures BufferOf(c, l) == BufferOf(r.slots, l) + (if l == name then r.out else "") {
      ContributeFacts(r.slots, name, r.out, l);
    }
    if !quiet && !(|st.yielded| < |r.yielded|) {
      var l :| |BufferOf(st.slots, l)| < |BufferOf(r.slots, l)|;
      assert |BufferOf(st.slots, l)| < |BufferOf(c, l)|;
    } else if r.out != "" {
      assert |BufferOf(st.slots, name)| < |BufferOf(c, name)|;
    }
  }

  lemma {:induction false} FreshHeard(acts: seq<Act>, st: Rend, id: string)
    ensures Heard(st, Fresh(acts, st, id), Quiet(acts))
    decreases acts, 0
  {
    if acts != [] {
      FreshActHeard(acts[0], st, id);
      FreshHeard(acts[1..], FreshAct(acts[0], st, id), id);
      HeardThen(st, FreshAct(acts[0], st, id), Fresh(acts, st, id), QuietAct(acts[0]), Quiet(acts[1..]));
    }
  }

  lemma {:induction false} FreshActHeard(a: Act, st: Rend, id: string)
    ensures Heard(st, FreshAct(a, st, id), QuietAct(a))
    decreases a, 1
  {
    match a {
      case Provide(n, body) =>
        var r := Fresh(body, st.(out := ""), id);
        FreshHeard(body, st.(out := ""), id);
        ContributeHeard(st, r, n, Quiet(body));
        if Quiet(body) { FreshQuiet(body, st.(out := ""), id); }
      case Cached(_, _, body) => FreshHeard(body, st.(out := ""), id);
      case _ =>
    }
  }

  // ----- the exact condition -----

  function Size(acts: seq<Act>): nat
    decreases acts, 0
  {
    if acts == [] then 0 else SizeAct(acts[0]) + Size(acts[1..])
  }

  function SizeAct(a: Act): nat
    decreases a, 1
  {
    match a
    case Provide(_, body) => 1 + Size(body)
    case Cached(_, _, body) => 1 + Size(body)
    case _ => 1
  }

  // The regions of a quiet body are quiet and smaller.
  lemma {:induction false} QuietRegions(acts: seq<Act>)
    requires Quiet(acts)
    ensures forall p :: p in Regions(acts) ==> Quiet(p.1) && Size(p.1) < Size(acts)
    decreases acts, 0
  {
    if acts != [] {
      QuietRegions(acts[1..]);
      match acts[0] {
        case Provide(_, body) => QuietRegions(body);
        case Cached(_, _, body) => QuietRegions(body);
        case _ =>
      }
    }
  }

  lemma {:induction false} RegionsNested(acts: seq<Act>)
    ensures Nested(Regions(acts))
    decreases acts, 0
  {
    if acts != [] {
      RegionsNested(acts[1..]);
      match acts[0] {
        case Provide(_, body) => RegionsNested(body);
        case Cached(_, _, body) => RegionsNested(body);
        case _ =>
      }
    }
  }

  lemma TwoActs(a: Act, b: Act, st: Rend, store: Store, id: string)
    ensures var m := StoredAct(a, st, store, id); Stored([a, b], st, store, id) == StoredAct(b, m.0, m.1, id)
    ensures Fresh([a, b], st, id) == FreshAct(b, FreshAct(a, st, id), id)
    ensures Regions([a, b]) == RegionsAct(a) + RegionsAct(b)
  {
    var m := StoredAct(a, st, store, id);
    assert [a, b][1..] == [b] && [b][1..] == [];
    assert Stored([b], m.0, m.1, id) == StoredAct(b, m.0, m.1, id);
    assert Fresh([b], FreshAct(a, st, id), id) == FreshAct(b, FreshAct(a, st, id), id);
    assert Regions([b]) == RegionsAct(b);
  }

  // A quiet region whose regions are alike, then another of its key that does otherwise.
  lemma SecondServed(key: string, first: seq<Act>, second: seq<Act>, st: Rend, says: Verdicts, id: string)
    requires Quiet(first) && Keyed(first, says) && key in says && says[key] == VerdictOf(first)
    requires VerdictOf(second) != VerdictOf(first) && Fed(first) <= Open(st.slots) && st.yielded == [] && st.out == ""
    ensures var acts := [Cached(key, [], first), Cached(key, [], second)];
      !Same(Stored(acts, st, EMPTY, id).0, Fresh(acts, st, id))
  {
    var acts, text := [Cached(key, [], first), Cached(key, [], second)], TextOf(first);
    QuietRun(first, st, EMPTY, id, says);
    assert "" + text == text;
    var m, r := st.(out := text), StoredAct(acts[0], st, EMPTY, id);
    assert r.0 == m && FreshAct(acts[0], st, id) == m && key in r.1.entries && r.1.entries[key] == text;
    TwoActs(acts[0], acts[1], st, EMPTY, id);
    assert Stored(acts, st, EMPTY, id).0 == m.(out := text + text);
    FreshActHeard(acts[1], m, id);
    if Quiet(second) {
      FreshQuiet(second, m.(out := ""), id);
      assert Fresh(acts, st, id).out == text + TextOf(second);
      if text + text == text + TextOf(second) { Cancel(text, text, TextOf(second)); }
    }
  }

  lemma ListOf(names: set<string>) returns (r: seq<string>)
    ensures (set n | n in r) == names
  {
    if names == {} {
      r := [];
    } else {
      var n :| n in names;
      r := ListOf(names - {n});
      r := [n] + r;
      assert forall m :: m in r <==> m == n || m in names - {n};
    }
  }

  // Two regions of one key of which the first is quiet: some render tells the store.
  lemma {:induction false} Differs(key: string, first: seq<Act>, second: seq<Act>, regions: set<(string, seq<Act>)>)
    returns (acts: seq<Act>)
    requires Nested(regions) && (key, first) in regions && (key, second) in regions
    requires Quiet(first) && VerdictOf(first) != VerdictOf(second)
    ensures Regions(acts) <= regions && !Same(Stored(acts, START, EMPTY, "").0, Fresh(acts, START, ""))
    decreases Size(first)
  {
    var inner := Regions(first) + {(key, first)};
    QuietRegions(first);
    if Alike(inner) {
      acts := DiffersAlike(key, first, second, regions);
    } else {
      var p, q :| p in inner && q in inner && p.0 == q.0 && VerdictOf(p.1) != VerdictOf(q.1);
      if p == (key, first) { acts := Differs(q.0, q.1, p.1, regions); }
      else { acts := Differs(p.0, p.1, q.1, regions); }
    }
  }

  // The buffers of the first opened, then both.
  lemma DiffersAlike(key: string, first: seq<Act>, second: seq<Act>, regions: set<(string, seq<Act>)>)
    returns (acts: seq<Act>)
    requires Nested(regions) && (key, first) in regions && (key, second) in regions
    requires Quiet(first) && VerdictOf(first) != VerdictOf(second) && Alike(Regions(first) + {(key, first)})
    ensures Regions(acts) <= regions && !Same(Stored(acts, START, EMPTY, "").0, Fresh(acts, START, ""))
  {
    var inner, pair := Regions(first) + {(key, first)}, [Cached(key, [], first), Cached(key, [], second)];
    AlikeKeyed(first, inner);
    assert (key, first) in inner;
    var names := ListOf(Fed(first));
    var s := OpeningRun(names, pair, START, "");
    acts := Opening(names) + pair;
    SecondServed(key, first, second, START.(slots := s), Says(inner), "");
    TwoActs(pair[0], pair[1], START, EMPTY, "");
  }

  // Renders over a set of regions cannot tell the store, whatever else they hold, exactly when the
  // regions of each key all write the same text or all defer or contribute.
  lemma InvisibleExact(regions: set<(string, seq<Act>)>)
    requires Nested(regions)
    ensures Invisible(regions) <==> Alike(regions)
  {
    if Alike(regions) {
      forall acts, id | Regions(acts) <= regions
        ensures Same(Stored(acts, START, EMPTY, id).0, Fresh(acts, START, id))
      {
        AlikeKeyed(acts, regions);
        Transparent(acts, START, START, EMPTY, id, Says(regions));
      }
    } else {
      var p, q :| p in regions && q in regions && p.0 == q.0 && VerdictOf(p.1) != VerdictOf(q.1);
      var acts;
      if Quiet(p.1) { acts := Differs(p.0, p.1, q.1, regions); } else { acts := Differs(q.0, q.1, p.1, regions); }
    }
  }
}
