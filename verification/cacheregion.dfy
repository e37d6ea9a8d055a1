/** Cached regions over a store shared by renders: a hit replays what a region of its key wrote, and a
    region that touched the deferred slots is never stored. */
module CacheRegion {
  import opened Slots

  // The steps of a render.  A region carries its full key, its tags and its body.
  datatype Act =
    | Emit(text: string)
    | Yield(name: string)
    | Provide(name: string, body: seq<Act>)
    | Cached(key: string, tags: seq<string>, body: seq<Act>)

  // The slot buffers in creation order, the reserved labels, and the output of a render.
  datatype Rend = Rend(out: string, slots: Buffers, yielded: seq<string>)

  // ----- slot buffers -----

  function Bytes(slots: Buffers): nat {
    if slots == [] then 0 else Bytes(slots[..|slots| - 1]) + |slots[|slots| - 1].1|
  }

  // How many buffers there are, and how much they hold.
  function Stamp(slots: Buffers): (nat, nat) { (|slots|, Bytes(slots)) }

  lemma {:induction false} ContributeFacts(slots: Buffers, name: string, text: string, other: string)
    ensures BufferOf(Contribute(slots, name, text), other) == BufferOf(slots, other)
        + (if other == name then text else "")
    ensures Bytes(Contribute(slots, name, text)) == Bytes(slots) + |text|
    ensures |Contribute(slots, name, text)| >= |slots|
  {
    if slots != [] {
      var init, last := slots[..|slots| - 1], slots[|slots| - 1];
      ContributeFacts(init, name, text, other);
      var r := Contribute(slots, name, text);
      assert r == r[..|r| - 1] + [r[|r| - 1]];
      assert r[..|r| - 1] == if last.0 == name then init else Contribute(init, name, text);
    } else {
      assert [(name, text)][..0] == [];
    }
  }

  // ----- rendering without a store -----

  function Fresh(acts: seq<Act>, st: Rend, id: string): Rend
    decreases acts, 0
  {
    if acts == [] then st else Fresh(acts[1..], FreshAct(acts[0], st, id), id)
  }

  function FreshAct(a: Act, st: Rend, id: string): Rend
    decreases a, 1
  {
    match a
    case Emit(t) => st.(out := st.out + t)
    case Yield(n) => st.(out := st.out + Placeholder(id, n), yielded := st.yielded + [n])
    case Provide(n, body) =>
      var r := Fresh(body, st.(out := ""), id);
      Rend(st.out, Contribute(r.slots, n, r.out), r.yielded)
    case Cached(_, _, body) =>
      var r := Fresh(body, st.(out := ""), id);
      r.(out := st.out + r.out)
  }

  // ----- rendering over a store -----

  // The stored bodies by key, and the keys filed under each tag.
  datatype Store = Store(entries: map<string, string>, byTag: map<string, set<string>>)

  const EMPTY: Store := Store(map[], map[])

  function TagOf(store: Store, tag: string): set<string> {
    if tag in store.byTag then store.byTag[tag] else {}
  }

  // A body stored under its key, and the key filed under every tag of the region.
  function Filed(store: Store, key: string, text: string, tags: seq<string>): Store {
    Store(store.entries[key := text],
          map t | t in store.byTag.Keys + (set i | 0 <= i < |tags| :: tags[i]) ::
            TagOf(store, t) + (if t in tags then {key} else {}))
  }

  // The keys filed under a tag dropped, and the tag.
  function Invalidated(store: Store, tag: string): Store {
    Store(store.entries - TagOf(store, tag), store.byTag - {tag})
  }

  predicate Contains(s: string, t: string) {
    exists i :: 0 <= i <= |s| && t <= s[i..]
  }

  // Whether a body rendered from slots to r touched the deferred slots.
  predicate UsedSlots(slots: Buffers, r: Rend, id: string) {
    Stamp(r.slots) != Stamp(slots) || (r.yielded != [] && Contains(r.out, Token(id)))
  }

  function Stored(acts: seq<Act>, st: Rend, store: Store, id: string): (Rend, Store)
    decreases acts, 0
  {
    if acts == [] then (st, store)
    else
      var r := StoredAct(acts[0], st, store, id);
      Stored(acts[1..], r.0, r.1, id)
  }

  function StoredAct(a: Act, st: Rend, store: Store, id: string): (Rend, Store)
    decreases a, 1
  {
    match a
    case Emit(t) => (st.(out := st.out + t), store)
    case Yield(n) => (st.(out := st.out + Placeholder(id, n), yielded := st.yielded + [n]), store)
    case Provide(n, body) =>
      var r := Stored(body, st.(out := ""), store, id);
      (Rend(st.out, Contribute(r.0.slots, n, r.0.out), r.0.yielded), r.1)
    case Cached(key, tags, body) =>
      if key in store.entries then (st.(out := st.out + store.entries[key]), store)
      else
        var r := Stored(body, st.(out := ""), store, id);
        (r.0.(out := st.out + r.0.out), if UsedSlots(st.slots, r.0, id) then r.1 else Filed(r.1, key, r.0.out, tags))
  }

  // ----- quiet bodies -----

  // A body that defers nothing and contributes nothing.
  predicate Quiet(acts: seq<Act>)
    decreases acts, 0
  {
    acts == [] || (QuietAct(acts[0]) && Quiet(acts[1..]))
  }

  predicate QuietAct(a: Act)
    decreases a, 1
  {
    match a
    case Emit(_) => true
    case Yield(_) => false
    case Provide(_, body) => Quiet(body) && TextOf(body) == ""
    case Cached(_, _, body) => Quiet(body)
  }

  // What a quiet body writes.
  function TextOf(acts: seq<Act>): string
    decreases acts, 0
  {
    if acts == [] then "" else TextOfAct(acts[0]) + TextOf(acts[1..])
  }

  function TextOfAct(a: Act): string
    decreases a, 1
  {
    match a
    case Emit(t) => t
    case Yield(_) => ""
    case Provide(_, _) => ""
    case Cached(_, _, body) => TextOf(body)
  }

  // ----- what a run may read -----

  // The regions of a body, by key, nested ones included.
  function Regions(acts: seq<Act>): set<(string, seq<Act>)>
    decreases acts, 0
  {
    if acts == [] then {} else RegionsAct(acts[0]) + Regions(acts[1..])
  }

  function RegionsAct(a: Act): set<(string, seq<Act>)>
    decreases a, 1
  {
    match a
    case Provide(_, body) => Regions(body)
    case Cached(key, _, body) => {(key, body)} + Regions(body)
    case _ => {}
  }

  // What is given: the regions that can have run, and the store they began with.
  datatype Known = Known(regions: set<(string, seq<Act>)>, base: map<string, string>)

  // A text that a body which defers and contributes nothing can write, each region in it replaced by
  // any text of its key: the one the store began with, or what some region of that key writes.
  ghost predicate Reads(acts: seq<Act>, text: string, w: Known, n: nat)
    decreases 2 * n, acts, 0
  {
    if acts == [] then text == ""
    else exists i | 0 <= i <= |text| :: ReadsAct(acts[0], text[..i], w, n) && Reads(acts[1..], text[i..], w, n)
  }

  ghost predicate ReadsAct(a: Act, text: string, w: Known, n: nat)
    decreases 2 * n, a, 1
  {
    match a
    case Emit(t) => text == t
    case Yield(_) => false
    case Provide(_, body) => text == "" && Reads(body, "", w, n)
    case Cached(key, _, _) => n > 0 && ReadsKey(key, text, w, n - 1)
  }

  ghost predicate ReadsKey(key: string, text: string, w: Known, n: nat)
    decreases 2 * n + 1
  {
    || (key in w.base && w.base[key] == text)
    || exists body :: (key, body) in w.regions && Reads(body, text, w, n)
  }

  // Every entry is a text of its key.
  ghost predicate From(store: Store, w: Known) {
    forall k :: k in store.entries ==> exists n: nat :: ReadsKey(k, store.entries[k], w, n)
  }

  lemma {:induction false} ReadsMore(acts: seq<Act>, text: string, w: Known, n: nat, m: nat)
    requires n <= m && Reads(acts, text, w, n)
    ensures Reads(acts, text, w, m)
    decreases n, acts, 0
  {
    if acts != [] {
      var i :| 0 <= i <= |text| && ReadsAct(acts[0], text[..i], w, n) && Reads(acts[1..], text[i..], w, n);
      ReadsActMore(acts[0], text[..i], w, n, m);
      ReadsMore(acts[1..], text[i..], w, n, m);
    }
  }

  lemma {:induction false} ReadsActMore(a: Act, text: string, w: Known, n: nat, m: nat)
    requires n <= m && ReadsAct(a, text, w, n)
    ensures ReadsAct(a, text, w, m)
    decreases n, a, 1
  {
    match a {
      case Provide(_, body) => ReadsMore(body, "", w, n, m);
      case Cached(key, _, _) =>
        if !(key in w.base && w.base[key] == text) {
          var body :| (key, body) in w.regions && Reads(body, text, w, n - 1);
          ReadsMore(body, text, w, n - 1, m - 1);
        }
      case _ =>
    }
  }

  // ----- what one run shows -----

  // A run appends to the output and grows the buffers.
  ghost predicate Ran(st: Rend, r: Rend) {
    && st.out <= r.out && |st.slots| <= |r.slots| && Bytes(st.slots) <= Bytes(r.slots)
    && (st.yielded != [] ==> r.yielded != [])
  }

  // It left a mark on the stamp, or a token in what it wrote.
  ghost predicate Marked(st: Rend, r: Rend, id: string)
    requires Ran(st, r)
  {
    Stamp(r.slots) != Stamp(st.slots) || (r.yielded != [] && Contains(r.out[|st.out|..], Token(id)))
  }

  // Unmarked, it wrote what a body without deferred slots can write.
  ghost predicate Shows(acts: seq<Act>, st: Rend, r: Rend, w: Known, id: string)
    requires Ran(st, r)
  {
    Marked(st, r, id) || exists n: nat :: Reads(acts, r.out[|st.out|..], w, n)
  }

  ghost predicate ShowsAct(a: Act, st: Rend, r: Rend, w: Known, id: string)
    requires Ran(st, r)
  {
    Marked(st, r, id) || exists n: nat :: ReadsAct(a, r.out[|st.out|..], w, n)
  }

  lemma ContainsMore(a: string, b: string, t: string)
    requires Contains(a, t) || Contains(b, t)
    ensures Contains(a + b, t)
  {
    if Contains(a, t) {
      var i :| 0 <= i <= |a| && t <= a[i..];
      assert (a + b)[i..] == a[i..] + b;
    } else {
      var i :| 0 <= i <= |b| && t <= b[i..];
      assert (a + b)[|a| + i..] == b[i..];
    }
  }

  lemma Pieces(a: string, b: string, c: string)
    requires a <= b && b <= c
    ensures a <= c && c[|a|..] == b[|a|..] + c[|b|..]
  {
  }

  lemma ShowsThen(acts: seq<Act>, st: Rend, m: Rend, r: Rend, w: Known, id: string)
    requires acts != [] && Ran(st, m) && Ran(m, r)
    requires ShowsAct(acts[0], st, m, w, id) && Shows(acts[1..], m, r, w, id)
    ensures Ran(st, r) && Shows(acts, st, r, w, id)
  {
    Pieces(st.out, m.out, r.out);
    var x, y := m.out[|st.out|..], r.out[|m.out|..];
    if !Marked(st, r, id) {
      if Contains(x, Token(id)) || Contains(y, Token(id)) { ContainsMore(x, y, Token(id)); }
      var a: nat :| ReadsAct(acts[0], x, w, a);
      var b: nat :| Reads(acts[1..], y, w, b);
      var n := if a <= b then b else a;
      ReadsActMore(acts[0], x, w, a, n);
      ReadsMore(acts[1..], y, w, b, n);
      assert (x + y)[..|x|] == x && (x + y)[|x|..] == y;
      assert Reads(acts, x + y, w, n);
    }
  }

  // Capturing a body's output and contributing it.
  lemma ShowsProvide(name: string, body: seq<Act>, st: Rend, r: Rend, w: Known, id: string)
    requires Ran(st.(out := ""), r) && Shows(body, st.(out := ""), r, w, id)
    ensures var p := Rend(st.out, Contribute(r.slots, name, r.out), r.yielded);
      Ran(st, p) && ShowsAct(Provide(name, body), st, p, w, id)
  {
    var p := Rend(st.out, Contribute(r.slots, name, r.out), r.yielded);
    ContributeFacts(r.slots, name, r.out, "");
    assert r.out[0..] == r.out && st.out[|st.out|..] == "";
    if !Marked(st, p, id) {
      assert r.out == "" && !Contains("", Token(id));
      var n: nat :| Reads(body, r.out, w, n);
      assert ReadsAct(Provide(name, body), "", w, n);
    }
  }

  lemma ShowsRegion(key: string, tags: seq<string>, body: seq<Act>, st: Rend, r: Rend, w: Known, id: string)
    requires (key, body) in w.regions && Ran(st.(out := ""), r) && Shows(body, st.(out := ""), r, w, id)
    ensures var p := r.(out := st.out + r.out); Ran(st, p) && ShowsAct(Cached(key, tags, body), st, p, w, id)
    ensures UsedSlots(st.slots, r, id) || exists n: nat :: ReadsKey(key, r.out, w, n)
  {
    var p := r.(out := st.out + r.out);
    assert p.out[|st.out|..] == r.out && r.out[0..] == r.out;
    if !Marked(st, p, id) {
      var n: nat :| Reads(body, r.out, w, n);
      assert ReadsKey(key, r.out, w, n);
      assert ReadsAct(Cached(key, tags, body), r.out, w, n + 1);
    }
  }

  lemma ShowsHit(key: string, tags: seq<string>, body: seq<Act>, st: Rend, text: string, w: Known, id: string, n: nat)
    requires ReadsKey(key, text, w, n)
    ensures var p := st.(out := st.out + text); Ran(st, p) && ShowsAct(Cached(key, tags, body), st, p, w, id)
  {
    assert (st.out + text)[|st.out|..] == text;
    assert ReadsAct(Cached(key, tags, body), text, w, n + 1);
  }

  lemma YieldMarks(n: string, st: Rend, id: string)
    ensures var p := st.(out := st.out + Placeholder(id, n), yielded := st.yielded + [n]);
      Ran(st, p) && Marked(st, p, id)
  {
    var out := st.out + Placeholder(id, n);
    assert out[|st.out|..] == Placeholder(id, n);
    assert Token(id) <= Placeholder(id, n)[0..];
  }

  lemma EmitShows(t: string, st: Rend, w: Known, id: string)
    ensures var p := st.(out := st.out + t); Ran(st, p) && ShowsAct(Emit(t), st, p, w, id)
  {
    assert (st.out + t)[|st.out|..] == t;
    assert ReadsAct(Emit(t), t, w, 0);
  }

  // Over a store of such texts a run leaves one: what is stored is what an unmarked region wrote.
  lemma {:induction false} StoredFacts(acts: seq<Act>, st: Rend, store: Store, id: string, w: Known)
    requires Regions(acts) <= w.regions && From(store, w)
    ensures var r := Stored(acts, st, store, id); From(r.1, w) && Ran(st, r.0) && Shows(acts, st, r.0, w, id)
    decreases acts, 0
  {
    if acts != [] {
      var m := StoredAct(acts[0], st, store, id);
      StoredActFacts(acts[0], st, store, id, w);
      StoredFacts(acts[1..], m.0, m.1, id, w);
      ShowsThen(acts, st, m.0, Stored(acts[1..], m.0, m.1, id).0, w, id);
    } else {
      assert st.out[|st.out|..] == "" && Reads(acts, "", w, 0);
    }
  }

  lemma {:induction false} StoredActFacts(a: Act, st: Rend, store: Store, id: string, w: Known)
    requires RegionsAct(a) <= w.regions && From(store, w)
    ensures var r := StoredAct(a, st, store, id); From(r.1, w) && Ran(st, r.0) && ShowsAct(a, st, r.0, w, id)
    decreases a, 1
  {
    match a {
      case Emit(t) => EmitShows(t, st, w, id);
      case Yield(n) => YieldMarks(n, st, id);
      case Provide(n, body) =>
        StoredFacts(body, st.(out := ""), store, id, w);
        ShowsProvide(n, body, st, Stored(body, st.(out := ""), store, id).0, w, id);
      case Cached(key, tags, body) =>
        if key in store.entries {
          var n: nat :| ReadsKey(key, store.entries[key], w, n);
          ShowsHit(key, tags, body, st, store.entries[key], w, id, n);
        } else {
          StoredFacts(body, st.(out := ""), store, id, w);
          ShowsRegion(key, tags, body, st, Stored(body, st.(out := ""), store, id).0, w, id);
        }
    }
  }

  // ----- regions that share a key -----

  // What the regions of a key do: all of them defer or contribute, or all write the same text.
  datatype Verdict = Defers | Writes(text: string)

  type Verdicts = map<string, Verdict>

  function VerdictOf(body: seq<Act>): Verdict {
    if Quiet(body) then Writes(TextOf(body)) else Defers
  }

  // Every region does what the table says of its key.
  predicate Keyed(acts: seq<Act>, says: Verdicts)
    decreases acts, 0
  {
    acts == [] || (KeyedAct(acts[0], says) && Keyed(acts[1..], says))
  }

  predicate KeyedAct(a: Act, says: Verdicts)
    decreases a, 1
  {
    match a
    case Provide(_, body) => Keyed(body, says)
    case Cached(key, _, body) => key in says && says[key] == VerdictOf(body) && Keyed(body, says)
    case _ => true
  }

  // The store holds, of each key, the text the table says.
  ghost predicate Sound(store: Store, says: Verdicts) {
    forall k :: k in store.entries ==> k in says && says[k] == Writes(store.entries[k])
  }

  ghost predicate Settled(w: Known, says: Verdicts) {
    && Sound(Store(w.base, map[]), says)
    && forall p :: p in w.regions ==> p.0 in says && says[p.0] == VerdictOf(p.1) && Keyed(p.1, says)
  }

  lemma {:induction false} KeyedRegions(acts: seq<Act>, says: Verdicts)
    requires Keyed(acts, says)
    ensures forall p :: p in Regions(acts) ==> p.0 in says && says[p.0] == VerdictOf(p.1) && Keyed(p.1, says)
    decreases acts, 0
  {
    if acts != [] {
      KeyedRegions(acts[1..], says);
      match acts[0] {
        case Provide(_, body) => KeyedRegions(body, says);
        case Cached(_, _, body) => KeyedRegions(body, says);
        case _ =>
      }
    }
  }

  // Under a table, what a body can write is its text alone.
  lemma {:induction false} ReadsKeyed(acts: seq<Act>, text: string, w: Known, n: nat, says: Verdicts)
    requires Settled(w, says) && Keyed(acts, says) && Reads(acts, text, w, n)
    ensures Quiet(acts) && text == TextOf(acts)
    decreases 2 * n, acts, 0
  {
    if acts != [] {
      var i :| 0 <= i <= |text| && ReadsAct(acts[0], text[..i], w, n) && Reads(acts[1..], text[i..], w, n);
      ReadsActKeyed(acts[0], text[..i], w, n, says);
      ReadsKeyed(acts[1..], text[i..], w, n, says);
      assert text == text[..i] + text[i..];
    }
  }

  lemma {:induction false} ReadsActKeyed(a: Act, text: string, w: Known, n: nat, says: Verdicts)
    requires Settled(w, says) && KeyedAct(a, says) && ReadsAct(a, text, w, n)
    ensures QuietAct(a) && text == TextOfAct(a)
    decreases 2 * n, a, 1
  {
    match a {
      case Emit(_) =>
      case Provide(_, body) => ReadsKeyed(body, "", w, n, says);
      case Cached(key, _, _) => ReadsKeyKeyed(key, text, w, n - 1, says);
    }
  }

  lemma {:induction false} ReadsKeyKeyed(key: string, text: string, w: Known, n: nat, says: Verdicts)
    requires Settled(w, says) && ReadsKey(key, text, w, n)
    ensures key in says && says[key] == Writes(text)
    decreases 2 * n + 1
  {
    if !(key in w.base && w.base[key] == text) {
      var body :| (key, body) in w.regions && Reads(body, text, w, n);
      ReadsKeyed(body, text, w, n, says);
    }
  }

  // A run over a sound store leaves a sound store.
  lemma StoredSound(acts: seq<Act>, st: Rend, store: Store, id: string, says: Verdicts)
    requires Keyed(acts, says) && Sound(store, says)
    ensures Sound(Stored(acts, st, store, id).1, says)
  {
    var w := Known(Regions(acts), store.entries);
    var after := Stored(acts, st, store, id).1;
    KeyedRegions(acts, says);
    forall k | k in store.entries ensures exists n: nat :: ReadsKey(k, store.entries[k], w, n) {
      assert ReadsKey(k, store.entries[k], w, 0);
    }
    StoredFacts(acts, st, store, id, w);
    forall k | k in after.entries ensures k in says && says[k] == Writes(after.entries[k]) {
      var n: nat :| ReadsKey(k, after.entries[k], w, n);
      ReadsKeyKeyed(k, after.entries[k], w, n, says);
    }
  }

  lemma StoredActSound(a: Act, st: Rend, store: Store, id: string, says: Verdicts)
    requires KeyedAct(a, says) && Sound(store, says)
    ensures Sound(StoredAct(a, st, store, id).1, says)
  {
    var r := StoredAct(a, st, store, id);
    assert Stored([a], st, store, id) == Stored([a][1..], r.0, r.1, id) == r;
    StoredSound([a], st, store, id, says);
  }

  // ----- a store is invisible -----

  // Renders no later step and no resolution can tell apart.
  ghost predicate Same(a: Rend, b: Rend) {
    a.out == b.out && a.yielded == b.yielded && forall l :: BufferOf(a.slots, l) == BufferOf(b.slots, l)
  }

  // A quiet body rendered afresh.
  lemma {:induction false} FreshQuiet(acts: seq<Act>, st: Rend, id: string)
    requires Quiet(acts)
    ensures Same(Fresh(acts, st, id), st.(out := st.out + TextOf(acts)))
    decreases acts, 0
  {
    if acts != [] {
      FreshQuietAct(acts[0], st, id);
      FreshQuiet(acts[1..], FreshAct(acts[0], st, id), id);
    } else {
      assert st.out + "" == st.out;
    }
  }

  lemma {:induction false} FreshQuietAct(a: Act, st: Rend, id: string)
    requires QuietAct(a)
    ensures Same(FreshAct(a, st, id), st.(out := st.out + TextOfAct(a)))
    decreases a, 1
  {
    match a {
      case Emit(_) =>
      case Provide(n, body) =>
        var r := Fresh(body, st.(out := ""), id);
        FreshQuiet(body, st.(out := ""), id);
        forall l ensures BufferOf(Contribute(r.slots, n, r.out), l) == BufferOf(st.slots, l) {
          ContributeFacts(r.slots, n, r.out, l);
        }
      case Cached(_, _, body) => FreshQuiet(body, st.(out := ""), id);
    }
  }

  lemma {:induction false} Transparent(acts: seq<Act>, st: Rend, sf: Rend, store: Store, id: string,
                                       says: Verdicts)
    requires Keyed(acts, says) && Sound(store, says) && Same(st, sf)
    ensures Same(Stored(acts, st, store, id).0, Fresh(acts, sf, id))
    decreases acts, 0
  {
    if acts != [] {
      TransparentAct(acts[0], st, sf, store, id, says);
      StoredActSound(acts[0], st, store, id, says);
      var m := StoredAct(acts[0], st, store, id);
      Transparent(acts[1..], m.0, FreshAct(acts[0], sf, id), m.1, id, says);
    }
  }

  lemma {:induction false} TransparentAct(a: Act, st: Rend, sf: Rend, store: Store, id: string,
                                          says: Verdicts)
    requires KeyedAct(a, says) && Sound(store, says) && Same(st, sf)
    ensures Same(StoredAct(a, st, store, id).0, FreshAct(a, sf, id))
    decreases a, 1
  {
    match a {
      case Emit(_) =>
      case Yield(_) =>
      case Provide(n, body) =>
        Transparent(body, st.(out := ""), sf.(out := ""), store, id, says);
        var r, f := Stored(body, st.(out := ""), store, id).0, Fresh(body, sf.(out := ""), id);
        forall l ensures BufferOf(Contribute(r.slots, n, r.out), l) == BufferOf(Contribute(f.slots, n, f.out), l) {
          ContributeFacts(r.slots, n, r.out, l);
          ContributeFacts(f.slots, n, f.out, l);
        }
      case Cached(key, _, body) =>
        if key in store.entries {
          FreshQuiet(body, sf.(out := ""), id);
        } else {
          Transparent(body, st.(out := ""), sf.(out := ""), store, id, says);
        }
    }
  }

  // ----- renders sharing a store -----

  // A render with the token of its own, the invalidation of a tag, or of everything.
  datatype Step = Show(acts: seq<Act>, id: string) | Invalidate(tag: string) | Wipe

  // The finished output: every reserved label resolved in turn.
  function Resolved(r: Rend, id: string): string {
    ResolveFrom(r.out, r.yielded, r.slots, id)
  }

  lemma {:induction false} ResolvedSame(out: string, names: seq<string>, a: Buffers, b: Buffers, id: string)
    requires forall l :: BufferOf(a, l) == BufferOf(b, l)
    ensures ResolveFrom(out, names, a, id) == ResolveFrom(out, names, b, id)
    decreases |names|
  {
    if names != [] {
      ResolvedSame(ReplaceAll(out, Placeholder(id, names[0]), BufferOf(a, names[0])), names[1..], a, b, id);
    }
  }

  const START: Rend := Rend("", [], [])

  // What a step that is no render leaves of a store.
  function Dropped(store: Store, s: Step): Store {
    match s
    case Show(_, _) => store
    case Invalidate(tag) => Invalidated(store, tag)
    case Wipe => EMPTY
  }

  // The outputs of steps taken one after another over one store, and without any.
  function Served(steps: seq<Step>, store: Store): (seq<string>, Store) {
    if steps == [] then ([], store)
    else
      match steps[0]
      case Show(acts, id) =>
        var r := Stored(acts, START, store, id);
        var rest := Served(steps[1..], r.1);
        ([Resolved(r.0, id)] + rest.0, rest.1)
      case _ =>
        var rest := Served(steps[1..], Dropped(store, steps[0]));
        ([""] + rest.0, rest.1)
  }

  function Plainly(steps: seq<Step>): seq<string> {
    if steps == [] then []
    else
      [if steps[0].Show? then Resolved(Fresh(steps[0].acts, START, steps[0].id), steps[0].id) else ""]
      + Plainly(steps[1..])
  }

  // Over any sequence of renders and invalidations sharing one store, where the regions of each key
  // all write one text or all touch the slots: every output is the output of rendering afresh, and
  // the store stays sound.
  lemma {:induction false} StoreInvisible(steps: seq<Step>, store: Store, says: Verdicts)
    requires Sound(store, says) && forall s :: s in steps && s.Show? ==> Keyed(s.acts, says)
    ensures Served(steps, store).0 == Plainly(steps) && Sound(Served(steps, store).1, says)
    decreases steps
  {
    if steps != [] {
      match steps[0] {
        case Show(acts, id) =>
          var r, f := Stored(acts, START, store, id), Fresh(acts, START, id);
          StoredSound(acts, START, store, id, says);
          Transparent(acts, START, START, store, id, says);
          ResolvedSame(r.0.out, r.0.yielded, r.0.slots, f.slots, id);
          StoreInvisible(steps[1..], r.1, says);
        case _ => StoreInvisible(steps[1..], Dropped(store, steps[0]), says);
      }
    }
  }

  // A region that opens a slot buffer is not stored, even when it contributes nothing to it.
  lemma OpeningNotStored(id: string, slot: string)
    ensures Stored([Cached("k", [], [Provide(slot, [])])], START, EMPTY, id) == (Rend("", [(slot, "")], []), EMPTY)
  {
    var a := Cached("k", [], [Provide(slot, [])]);
    var p, r := Provide(slot, []), Rend("", [(slot, "")], []);
    assert [a][1..] == [] && [p][1..] == [];
    assert Stored([], START, EMPTY, id) == (START, EMPTY);
    assert StoredAct(p, START, EMPTY, id) == (r, EMPTY);
    assert Stored([p], START, EMPTY, id) == (r, EMPTY);
    assert UsedSlots([], r, id);
    assert START.(out := "") == START && "" + "" == "" && "k" !in EMPTY.entries;
    assert StoredAct(a, START, EMPTY, id) == (r, EMPTY);
  }

  // Two regions of one key that write different texts: the second is served the first one's.
  lemma TwoBodies(id: string)
    ensures var steps := [Show([Cached("k", [], [Emit("a")])], id), Show([Cached("k", [], [Emit("b")])], id)];
      Served(steps, EMPTY).0 == ["a", "a"] && Plainly(steps) == ["a", "b"]
  {
    var first, second := Show([Cached("k", [], [Emit("a")])], id), Show([Cached("k", [], [Emit("b")])], id);
    RegionOnce("a", id);
    RegionOnce("b", id);
    assert [first, second][1..] == [second] && [second][1..] == [];
    var store := Store(map["k" := "a"], map[]);
    assert Served([second], store).0 == ["a"] + Served([], store).0;
    assert Plainly([second]) == ["b"] + Plainly([]);
    assert Resolved(Rend("a", [], []), id) == "a" && Resolved(Rend("b", [], []), id) == "b";
  }

  // The region written afresh, and served from a store that holds its key.
  lemma RegionOnce(t: string, id: string)
    ensures var acts := [Cached("k", [], [Emit(t)])];
      && Stored(acts, START, EMPTY, id) == (Rend(t, [], []), Store(map["k" := t], map[])) && Fresh(acts, START, id)
          == Rend(t, [], [])
      && Stored(acts, START, Store(map["k" := "a"], map[]), id) == (Rend("a", [], []), Store(map["k" := "a"], map[]))
  {
    var acts := [Cached("k", [], [Emit(t)])];
    EmitOnce(t, START.(out := ""), EMPTY, id);
    assert "" + t == t && "" + "a" == "a" && acts[1..] == [];
    assert StoredAct(acts[0], START, EMPTY, id) == (Rend(t, [], []), Store(map["k" := t], map[]));
    assert StoredAct(acts[0], START, Store(map["k" := "a"], map[]), id).0 == Rend("a", [], []);
  }

  lemma EmitOnce(t: string, st: Rend, store: Store, id: string)
    ensures Stored([Emit(t)], st, store, id) == (st.(out := st.out + t), store)
    ensures Fresh([Emit(t)], st, id) == st.(out := st.out + t)
  {
    assert [Emit(t)][1..] == [];
  }

  // ----- where a stored text comes from -----

  function AllRegions(steps: seq<Step>): set<(string, seq<Act>)> {
    if steps == [] then {} else (if steps[0].Show? then Regions(steps[0].acts) else {}) + AllRegions(steps[1..])
  }

  lemma {:induction false} ServedFrom(steps: seq<Step>, store: Store, w: Known)
    requires AllRegions(steps) <= w.regions && From(store, w)
    ensures From(Served(steps, store).1, w)
    decreases steps
  {
    if steps != [] {
      match steps[0] {
        case Show(acts, id) =>
          StoredFacts(acts, START, store, id, w);
          ServedFrom(steps[1..], Stored(acts, START, store, id).1, w);
        case Invalidate(tag) =>
          var left := Invalidated(store, tag);
          forall k | k in left.entries ensures exists n: nat :: ReadsKey(k, left.entries[k], w, n) {
            var n: nat :| ReadsKey(k, store.entries[k], w, n);
            assert ReadsKey(k, left.entries[k], w, n);
          }
          ServedFrom(steps[1..], left, w);
        case Wipe => ServedFrom(steps[1..], EMPTY, w);
      }
    }
  }

  // Whatever keys the regions share: an entry that a step finds is the text the store began with, or
  // one that a region of that key, run in an earlier step, writes without touching the slots.
  lemma HitReplays(steps: seq<Step>, store: Store, i: nat, key: string)
    requires i <= |steps| && key in Served(steps[..i], store).1.entries
    ensures exists n: nat :: ReadsKey(key, Served(steps[..i], store).1.entries[key],
                                      Known(AllRegions(steps[..i]), store.entries), n)
  {
    var w := Known(AllRegions(steps[..i]), store.entries);
    forall k | k in store.entries ensures exists n: nat :: ReadsKey(k, store.entries[k], w, n) {
      assert ReadsKey(k, store.entries[k], w, 0);
    }
    ServedFrom(steps[..i], store, w);
  }

  // ----- what a tag invalidates -----

  // The regions of a body by key and tags, nested ones included.
  function Filings(acts: seq<Act>): set<(string, seq<string>)>
    decreases acts, 0
  {
    if acts == [] then {} else FilingsAct(acts[0]) + Filings(acts[1..])
  }

  function FilingsAct(a: Act): set<(string, seq<string>)>
    decreases a, 1
  {
    match a
    case Provide(_, body) => Filings(body)
    case Cached(key, tags, body) => {(key, tags)} + Filings(body)
    case _ => {}
  }

  function AllFilings(steps: seq<Step>): set<(string, seq<string>)> {
    if steps == [] then {} else (if steps[0].Show? then Filings(steps[0].acts) else {}) + AllFilings(steps[1..])
  }

  // Every entry is filed under all the tags of some region of its key, and a key is filed under the tags
  // of its regions alone.
  ghost predicate Indexed(store: Store, fs: set<(string, seq<string>)>) {
    && (forall k :: k in store.entries ==> exists f :: f in fs && f.0 == k && FiledUnder(store, k, f.1))
    && (forall t, k :: k in TagOf(store, t) ==> exists f :: f in fs && f.0 == k && t in f.1)
  }

  ghost predicate FiledUnder(store: Store, key: string, tags: seq<string>) {
    forall t :: t in tags ==> key in TagOf(store, t)
  }

  lemma FiledIndexed(store: Store, key: string, text: string, tags: seq<string>, fs: set<(string, seq<string>)>)
    requires Indexed(store, fs) && (key, tags) in fs
    ensures Indexed(Filed(store, key, text, tags), fs)
  {
    var r := Filed(store, key, text, tags);
    forall t ensures TagOf(r, t) == TagOf(store, t) + (if t in tags then {key} else {}) { }
    forall k | k in r.entries ensures exists f :: f in fs && f.0 == k && FiledUnder(r, k, f.1) {
      if k == key {
        assert FiledUnder(r, key, (key, tags).1);
      } else {
        var f :| f in fs && f.0 == k && FiledUnder(store, k, f.1);
        assert FiledUnder(r, k, f.1);
      }
    }
    forall t, k | k in TagOf(r, t) ensures exists f :: f in fs && f.0 == k && t in f.1 {
      if k !in TagOf(store, t) { assert (key, tags).0 == k && t in (key, tags).1; }
    }
  }

  lemma DroppedIndexed(store: Store, s: Step, fs: set<(string, seq<string>)>)
    requires Indexed(store, fs) && !s.Show?
    ensures Indexed(Dropped(store, s), fs)
  {
    var r := Dropped(store, s);
    if s.Invalidate? {
      forall t ensures TagOf(r, t) == if t == s.tag then {} else TagOf(store, t) { }
      forall k | k in r.entries ensures exists f :: f in fs && f.0 == k && FiledUnder(r, k, f.1) {
        var f :| f in fs && f.0 == k && FiledUnder(store, k, f.1);
        assert s.tag !in f.1;
        assert FiledUnder(r, k, f.1);
      }
    }
  }

  lemma {:induction false} StoredIndexed(acts: seq<Act>, st: Rend, store: Store, id: string,
                                         fs: set<(string, seq<string>)>)
    requires Indexed(store, fs) && Filings(acts) <= fs
    ensures Indexed(Stored(acts, st, store, id).1, fs)
    decreases acts, 0
  {
    if acts != [] {
      var m := StoredAct(acts[0], st, store, id);
      StoredActIndexed(acts[0], st, store, id, fs);
      StoredIndexed(acts[1..], m.0, m.1, id, fs);
    }
  }

  lemma {:induction false} StoredActIndexed(a: Act, st: Rend, store: Store, id: string, fs: set<(string, seq<string>)>)
    requires Indexed(store, fs) && FilingsAct(a) <= fs
    ensures Indexed(StoredAct(a, st, store, id).1, fs)
    decreases a, 1
  {
    match a {
      case Provide(_, body) => StoredIndexed(body, st.(out := ""), store, id, fs);
      case Cached(key, tags, body) =>
        if key !in store.entries {
          var r := Stored(body, st.(out := ""), store, id);
          StoredIndexed(body, st.(out := ""), store, id, fs);
          assert (key, tags) in fs;
          FiledIndexed(r.1, key, r.0.out, tags, fs);
        }
      case _ =>
    }
  }

  lemma {:induction false} ServedIndexed(steps: seq<Step>, store: Store, fs: set<(string, seq<string>)>)
    requires Indexed(store, fs) && AllFilings(steps) <= fs
    ensures Indexed(Served(steps, store).1, fs)
    decreases steps
  {
    if steps != [] {
      match steps[0] {
        case Show(acts, id) =>
          StoredIndexed(acts, START, store, id, fs);
          ServedIndexed(steps[1..], Stored(acts, START, store, id).1, fs);
        case _ =>
          DroppedIndexed(store, steps[0], fs);
          ServedIndexed(steps[1..], Dropped(store, steps[0]), fs);
      }
    }
  }

  lemma {:induction false} ServedThen(steps: seq<Step>, more: seq<Step>, store: Store)
    ensures var a := Served(steps, store); var b := Served(more, a.1);
      Served(steps + more, store) == (a.0 + b.0, b.1)
    decreases steps
  {
    if steps == [] {
      assert steps + more == more && [] + Served(more, store).0 == Served(more, store).0;
    } else {
      assert (steps + more)[0] == steps[0] && (steps + more)[1..] == steps[1..] + more;
      match steps[0] {
        case Show(acts, id) =>
          var r := Stored(acts, START, store, id);
          ServedThen(steps[1..], more, r.1);
          var a := Served(steps[1..], r.1);
          assert ([Resolved(r.0, id)] + a.0) + Served(more, a.1).0 == [Resolved(r.0, id)] + (a.0 + Served(more, a.1).0);
        case _ =>
          ServedThen(steps[1..], more, Dropped(store, steps[0]));
          var a := Served(steps[1..], Dropped(store, steps[0]));
          assert ([""] + a.0) + Served(more, a.1).0 == [""] + (a.0 + Served(more, a.1).0);
      }
    }
  }

  // Every region of the key that the steps may run carries the tag; none does.
  predicate Carries(fs: set<(string, seq<string>)>, key: string, tag: string) {
    forall f <- fs :: f.0 == key ==> tag in f.1
  }

  predicate CarriesNone(fs: set<(string, seq<string>)>, key: string, tag: string) {
    forall f <- fs :: f.0 == key ==> tag !in f.1
  }

  // After any renders and invalidations, invalidating a tag drops every entry whose regions carry it and
  // leaves every entry whose regions do not.
  lemma InvalidationDrops(steps: seq<Step>, tag: string, key: string)
    ensures var before := Served(steps, EMPTY).1; var after := Served(steps + [Invalidate(tag)], EMPTY).1;
      && (Carries(AllFilings(steps), key, tag) ==> key !in after.entries)
      && (CarriesNone(AllFilings(steps), key, tag) ==>
            (key in after.entries <==> key in before.entries)
            && (key in before.entries ==> after.entries[key] == before.entries[key]))
  {
    var fs, before := AllFilings(steps), Served(steps, EMPTY).1;
    ServedIndexed(steps, EMPTY, fs);
    ServedThen(steps, [Invalidate(tag)], EMPTY);
    assert [Invalidate(tag)][1..] == [] && Served([Invalidate(tag)], before).1 == Invalidated(before, tag);
    if Carries(fs, key, tag) && key in before.entries {
      var f :| f in fs && f.0 == key && FiledUnder(before, key, f.1);
      assert key in TagOf(before, tag);
    }
  }

  // So the next render of such a region writes its own body, whatever was stored before.
  lemma RendersAgain(steps: seq<Step>, tag: string, key: string, tags: seq<string>, body: seq<Act>, id: string)
    requires Carries(AllFilings(steps), key, tag)
    ensures var store := Served(steps + [Invalidate(tag)], EMPTY).1;
      var r := Stored(body, START, store, id);
      && Stored([Cached(key, tags, body)], START, store, id).0 == r.0
      && (Regions(body) == {} ==> r.0 == Fresh(body, START, id))
  {
    var store := Served(steps + [Invalidate(tag)], EMPTY).1;
    var acts := [Cached(key, tags, body)];
    InvalidationDrops(steps, tag, key);
    var r := Stored(body, START, store, id);
    assert acts[1..] == [] && START.(out := "") == START && "" + r.0.out == r.0.out;
    assert Stored(acts, START, store, id) == StoredAct(acts[0], START, store, id);
    if Regions(body) == {} { NoRegions(body, START, store, id); }
  }

  lemma {:induction false} NoRegions(acts: seq<Act>, st: Rend, store: Store, id: string)
    requires Regions(acts) == {}
    ensures Stored(acts, st, store, id) == (Fresh(acts, st, id), store)
    decreases acts, 0
  {
    if acts != [] {
      NoRegionsAct(acts[0], st, store, id);
      NoRegions(acts[1..], FreshAct(acts[0], st, id), store, id);
    }
  }

  lemma {:induction false} NoRegionsAct(a: Act, st: Rend, store: Store, id: string)
    requires RegionsAct(a) == {}
    ensures StoredAct(a, st, store, id) == (FreshAct(a, st, id), store)
    decreases a, 1
  {
    match a {
      case Provide(_, body) => NoRegions(body, st.(out := ""), store, id);
      case Cached(_, _, _) => CachedHasOne(a);
      case _ =>
    }
  }

  lemma CachedHasOne(a: Act)
    requires a.Cached?
    ensures RegionsAct(a) != {}
  {
    assert (a.key, a.body) in RegionsAct(a);
  }

  // ----- no stored body defers a slot -----

  predicate PlainActs(acts: seq<Act>)
    decreases acts, 0
  {
    acts == [] || (PlainAct(acts[0]) && PlainActs(acts[1..]))
  }

  predicate PlainAct(a: Act)
    decreases a, 1
  {
    match a
    case Emit(t) => Plain(t)
    case Yield(n) => Plain(n)
    case Provide(_, body) => PlainActs(body)
    case Cached(_, _, body) => PlainActs(body)
  }

  ghost predicate PlainStore(store: Store) { forall k :: k in store.entries ==> Plain(store.entries[k]) }

  // What a run writes is plain, or holds its render's token.
  ghost predicate Piece(st: Rend, r: Rend, id: string) {
    && st.out <= r.out && (st.yielded != [] ==> r.yielded != [])
    && (Plain(r.out[|st.out|..]) || (r.yielded != [] && Contains(r.out[|st.out|..], Token(id))))
  }

  lemma PieceThen(st: Rend, m: Rend, r: Rend, id: string)
    requires Piece(st, m, id) && Piece(m, r, id)
    ensures Piece(st, r, id)
  {
    var x, y := m.out[|st.out|..], r.out[|m.out|..];
    Pieces(st.out, m.out, r.out);
    if Contains(x, Token(id)) || Contains(y, Token(id)) { ContainsMore(x, y, Token(id)); }
  }

  lemma {:induction false} StoredPlain(acts: seq<Act>, st: Rend, store: Store, id: string)
    requires PlainActs(acts) && PlainStore(store)
    ensures var r := Stored(acts, st, store, id); PlainStore(r.1) && Piece(st, r.0, id)
    decreases acts, 0
  {
    if acts != [] {
      var m := StoredAct(acts[0], st, store, id);
      StoredActPlain(acts[0], st, store, id);
      StoredPlain(acts[1..], m.0, m.1, id);
      PieceThen(st, m.0, Stored(acts[1..], m.0, m.1, id).0, id);
    }
  }

  lemma {:induction false} StoredActPlain(a: Act, st: Rend, store: Store, id: string)
    requires PlainAct(a) && PlainStore(store)
    ensures var r := StoredAct(a, st, store, id); PlainStore(r.1) && Piece(st, r.0, id)
    decreases a, 1
  {
    match a {
      case Emit(t) => assert (st.out + t)[|st.out|..] == t;
      case Yield(n) => YieldMarks(n, st, id);
      case Provide(n, body) =>
        StoredPlain(body, st.(out := ""), store, id);
        assert st.out[|st.out|..] == "";
      case Cached(key, _, body) =>
        if key in store.entries {
          assert (st.out + store.entries[key])[|st.out|..] == store.entries[key];
        } else {
          var r := Stored(body, st.(out := ""), store, id).0;
          StoredPlain(body, st.(out := ""), store, id);
          assert (st.out + r.out)[|st.out|..] == r.out && r.out[0..] == r.out;
        }
    }
  }

  ghost predicate Tokenless(store: Store) {
    forall k, id :: k in store.entries ==> !Contains(store.entries[k], Token(id))
  }

  // With plain texts and labels, over any renders and invalidations and whatever keys their regions
  // share, no stored body contains a token of any render.
  lemma {:induction false} NoStoredToken(steps: seq<Step>, store: Store)
    requires PlainStore(store) && forall s :: s in steps && s.Show? ==> PlainActs(s.acts)
    ensures PlainStore(Served(steps, store).1) && Tokenless(Served(steps, store).1)
    decreases steps
  {
    if steps != [] {
      match steps[0] {
        case Show(acts, id) =>
          StoredPlain(acts, START, store, id);
          NoStoredToken(steps[1..], Stored(acts, START, store, id).1);
        case _ => NoStoredToken(steps[1..], Dropped(store, steps[0]));
      }
    } else {
      forall k, id | k in store.entries ensures !Contains(store.entries[k], Token(id)) { assert Token(id)[0] == NUL; }
    }
  }

  // ----- what a finished render holds -----

  // A render whose output and buffers are kept as documents.
  datatype DocRend = DocRend(doc: Doc, slots: DocBuffers, yielded: seq<string>)

  const BLANK: DocRend := DocRend(End(""), [], [])

  function Flattened(r: DocRend, id: string): Rend {
    Rend(Flat(r.doc, id), FlatAll(r.slots, id), r.yielded)
  }

  function Docs(acts: seq<Act>, st: DocRend): DocRend
    decreases acts, 0
  {
    if acts == [] then st else Docs(acts[1..], DocsAct(acts[0], st))
  }

  function DocsAct(a: Act, st: DocRend): DocRend
    decreases a, 1
  {
    match a
    case Emit(t) => st.(doc := Append(st.doc, End(t)))
    case Yield(n) => st.(doc := Append(st.doc, Cut("", n, End(""))), yielded := st.yielded + [n])
    case Provide(n, body) =>
      var r := Docs(body, st.(doc := End("")));
      DocRend(st.doc, ContributeDoc(r.slots, n, r.doc), r.yielded)
    case Cached(_, _, body) =>
      var r := Docs(body, st.(doc := End("")));
      r.(doc := Append(st.doc, r.doc))
  }

  // A render writes its documents flat.
  lemma {:induction false} DocsFlat(acts: seq<Act>, st: DocRend, id: string)
    ensures Fresh(acts, Flattened(st, id), id) == Flattened(Docs(acts, st), id)
    decreases acts, 0
  {
    if acts != [] {
      DocsActFlat(acts[0], st, id);
      DocsFlat(acts[1..], DocsAct(acts[0], st), id);
    }
  }

  lemma {:induction false} DocsActFlat(a: Act, st: DocRend, id: string)
    ensures FreshAct(a, Flattened(st, id), id) == Flattened(DocsAct(a, st), id)
    decreases a, 1
  {
    match a {
      case Emit(t) => AppendFlat(st.doc, End(t), id);
      case Yield(n) =>
        AppendFlat(st.doc, Cut("", n, End("")), id);
        assert "" + (Placeholder(id, n) + "") == Placeholder(id, n);
      case Provide(n, body) =>
        var r := Docs(body, st.(doc := End("")));
        DocsFlat(body, st.(doc := End("")), id);
        ContributeFlat(r.slots, n, r.doc, id);
      case Cached(_, _, body) =>
        DocsFlat(body, st.(doc := End("")), id);
        AppendFlat(st.doc, Docs(body, st.(doc := End(""))).doc, id);
    }
  }

  // Every slot of the documents is reserved, and their texts and labels are plain.
  ghost predicate Tidy(r: DocRend) {
    && PlainDoc(r.doc) && PlainAll(r.slots) && (forall n :: n in r.yielded ==> Plain(n))
    && Reserved(Labels(r.doc), r.yielded) && forall n :: Reserved(Labels(DocOf(r.slots, n)), r.yielded)
  }

  ghost predicate Reserves(a: DocRend, b: DocRend) { forall n :: n in a.yielded ==> n in b.yielded }

  lemma {:induction false} ContributeDocOf(bs: DocBuffers, name: string, d: Doc, other: string)
    ensures DocOf(ContributeDoc(bs, name, d), other)
         == if other == name then Append(DocOf(bs, name), d) else DocOf(bs, other)
  {
    if bs != [] {
      var init, last := bs[..|bs| - 1], bs[|bs| - 1];
      var r := ContributeDoc(bs, name, d);
      ContributeDocOf(init, name, d, other);
      assert r[..|r| - 1] == if last.0 == name then init else ContributeDoc(init, name, d);
    } else {
      assert [(name, d)][..0] == [];
      assert Prepend("", d) == d;
    }
  }

  lemma TidyAppend(st: DocRend, d: Doc, slots: DocBuffers, yielded: seq<string>)
    requires Tidy(st) && Tidy(DocRend(d, slots, yielded)) && forall n :: n in st.yielded ==> n in yielded
    ensures Tidy(DocRend(Append(st.doc, d), slots, yielded)) && Tidy(DocRend(st.doc, slots, yielded))
  {
    AppendFlat(st.doc, d, "");
  }

  lemma TidyContribute(r: DocRend, name: string, d: Doc)
    requires Tidy(r) && PlainDoc(d) && Reserved(Labels(d), r.yielded)
    ensures Tidy(r.(slots := ContributeDoc(r.slots, name, d)))
  {
    forall n ensures PlainDoc(DocOf(ContributeDoc(r.slots, name, d), n))
                  && Reserved(Labels(DocOf(ContributeDoc(r.slots, name, d), n)), r.yielded) {
      ContributeDocOf(r.slots, name, d, n);
      AppendFlat(DocOf(r.slots, name), d, "");
    }
  }

  lemma {:induction false} DocsTidy(acts: seq<Act>, st: DocRend)
    requires PlainActs(acts) && Tidy(st)
    ensures Tidy(Docs(acts, st)) && Reserves(st, Docs(acts, st))
    decreases acts, 0
  {
    if acts != [] {
      DocsActTidy(acts[0], st);
      DocsTidy(acts[1..], DocsAct(acts[0], st));
    }
  }

  lemma {:induction false} DocsActTidy(a: Act, st: DocRend)
    requires PlainAct(a) && Tidy(st)
    ensures Tidy(DocsAct(a, st)) && Reserves(st, DocsAct(a, st))
    decreases a, 1
  {
    var blank := st.(doc := End(""));
    match a {
      case Emit(t) => TidyAppend(st, End(t), st.slots, st.yielded);
      case Yield(n) =>
        assert Labels(Cut("", n, End(""))) == {n};
        TidyAppend(st, Cut("", n, End("")), st.slots, st.yielded + [n]);
      case Provide(n, body) =>
        var r := Docs(body, blank);
        DocsTidy(body, blank);
        TidyAppend(st, r.doc, r.slots, r.yielded);
        TidyContribute(DocRend(st.doc, r.slots, r.yielded), n, r.doc);
      case Cached(_, _, body) =>
        var r := Docs(body, blank);
        DocsTidy(body, blank);
        TidyAppend(st, r.doc, r.slots, r.yielded);
    }
  }

  // A finished render of plain text and labels in which no pass meets a text that reads as its label
  // is its document with every slot's final content spliced in, exactly when each pass brings in only
  // slots reserved after it.
  lemma RenderSplices(acts: seq<Act>, id: string)
    requires Plain(id) && PlainActs(acts)
    requires var d := Docs(acts, BLANK); Sharply(d.doc, d.yielded, d.slots)
    ensures var d := Docs(acts, BLANK);
      Resolved(Fresh(acts, START, id), id) == Splice(d.doc, d.slots, |d.yielded|)
      <==> Later(Labels(d.doc), d.yielded, d.slots)
  {
    var d := Docs(acts, BLANK);
    DocsFlat(acts, BLANK, id);
    DocsTidy(acts, BLANK);
    ResolveSplices(d.doc, d.yielded, d.slots, id);
  }

  // A label reserved ahead of two slots with a text between them that reads as it: the pass over it
  // takes the text for its slot, and what is left of the two slots is no label's.
  lemma TornRender(id: string, put: string)
    requires Plain(id) && Plain(put)
    ensures var d := Docs(TornActs(put), BLANK);
      && Splice(d.doc, d.slots, |d.yielded|) == put + "b"
      && Resolved(Fresh(TornActs(put), START, id), id) == put + Placeholder(id, "a" + put + "c")
  {
    var d, slots, names := Cut("", "b", Cut("", "a", Cut("b", "c", End("")))), [("b", End(put))], ["b", "a", "c"];
    TornDocs(put);
    DocsFlat(TornActs(put), BLANK, id);
    assert slots[..0] == [];
    assert DocOf(slots, "b") == End(put) && DocOf(slots, "a") == DocOf(slots, "c") == End("");
    TornResolves(id, put, FlatAll(slots, id));
    assert Splice(d, slots, 3) == put + "b";
  }

  function TornActs(put: string): seq<Act> {
    [Provide("b", [Emit(put)]), Yield("b"), Yield("a"), Emit("b"), Yield("c")]
  }

  lemma DocsTwo(a: Act, b: Act, rest: seq<Act>, st: DocRend)
    ensures Docs([a, b] + rest, st) == Docs(rest, DocsAct(b, DocsAct(a, st)))
  {
    assert ([a, b] + rest)[1..] == [b] + rest && ([b] + rest)[1..] == rest;
  }

  lemma TornDocs(put: string)
    ensures Docs(TornActs(put), BLANK)
         == DocRend(Cut("", "b", Cut("", "a", Cut("b", "c", End("")))), [("b", End(put))], ["b", "a", "c"])
  {
    var acts, slots := TornActs(put), [("b", End(put))];
    var b, e := DocRend(Cut("", "b", End("")), slots, ["b"]), DocRend(Cut("", "b", Cut("", "a", End("b"))), slots,
                                                                     ["b", "a"]);
    TornOpening(put);
    TornMiddle(slots);
    DocsTwo(acts[0], acts[1], acts[2..], BLANK);
    DocsTwo(acts[2], acts[3], acts[4..], b);
    assert acts == [acts[0], acts[1]] + acts[2..] && acts[2..] == [acts[2], acts[3]] + acts[4..];
    assert acts[4..] == [Yield("c")] && [Yield("c")][1..] == [];
    assert Docs(acts[4..], e) == DocsAct(Yield("c"), e);
  }

  lemma TornOpening(put: string)
    ensures DocsAct(Yield("b"), DocsAct(Provide("b", [Emit(put)]), BLANK))
         == DocRend(Cut("", "b", End("")), [("b", End(put))], ["b"])
  {
    assert [Emit(put)][1..] == [] && "" + put == put;
    assert Docs([Emit(put)], BLANK) == DocRend(End(put), [], []);
  }

  lemma TornMiddle(slots: DocBuffers)
    ensures DocsAct(Emit("b"), DocsAct(Yield("a"), DocRend(Cut("", "b", End("")), slots, ["b"])))
         == DocRend(Cut("", "b", Cut("", "a", End("b"))), slots, ["b", "a"])
    ensures DocsAct(Yield("c"), DocRend(Cut("", "b", Cut("", "a", End("b"))), slots, ["b", "a"]))
         == DocRend(Cut("", "b", Cut("", "a", Cut("b", "c", End("")))), slots, ["b", "a", "c"])
  {
    assert "" + "b" == "b" && "b" + "" == "b" && "" + "" == "";
  }

  lemma TornResolves(id: string, put: string, slots: Buffers)
    requires Plain(id) && Plain(put)
    requires BufferOf(slots, "b") == put && BufferOf(slots, "a") == BufferOf(slots, "c") == ""
    ensures ResolveFrom(Flat(Cut("", "b", Cut("", "a", Cut("b", "c", End("")))), id), ["b", "a", "c"], slots, id)
         == put + Placeholder(id, "a" + put + "c")
  {
    var torn, names := Cut(put, "a" + put + "c", End("")), ["b", "a", "c"];
    TornPass(id, put);
    assert |"a" + put + "c"| >= 2;
    ReplaceFills(torn, id, "a", End(""));
    ReplaceFills(torn, id, "c", End(""));
    assert names[1..] == ["a", "c"] && ["a", "c"][1..] == ["c"] && ["c"][1..] == [];
  }

  lemma TornPass(id: string, put: string)
    requires Plain(id) && Plain(put)
    ensures ReplaceAll(Flat(Cut("", "b", Cut("", "a", Cut("b", "c", End("")))), id), Placeholder(id, "b"), put)
         == Flat(Cut(put, "a" + put + "c", End("")), id)
         == put + Placeholder(id, "a" + put + "c")
  {
    var pat, f := Placeholder(id, "b"), SEP + (id + (SEP + ""));
    var r := Placeholder(id, "a") + ("b" + (Placeholder(id, "c") + ""));
    TornFlat(id);
    TakeSlot(id, "b", r, put);
    TornParts(id, "b", "a", "c", "");
    TornText(id, "b", "a", "c", f, put);
    assert |f| < |pat|;
    assert ReplaceAll(r, pat, put) == SEP + (id + (SEP + ("a" + (put + ("c" + f)))));
    TornWhole(id, "a", put, "c");
    assert put + (Placeholder(id, "a" + put + "c") + "") == put + Placeholder(id, "a" + put + "c");
  }

  lemma TornWhole(id: string, a: string, put: string, c: string)
    ensures SEP + (id + (SEP + (a + (put + (c + (SEP + (id + (SEP + "")))))))) == Placeholder(id, a + put + c)
  {
    SlotParts(id, a + put + c, "");
    assert a + (put + (c + (SEP + (id + (SEP + ""))))) == (a + put + c) + (SEP + (id + (SEP + "")));
  }

  lemma TornFlat(id: string)
    ensures Flat(Cut("", "b", Cut("", "a", Cut("b", "c", End("")))), id)
         == Placeholder(id, "b") + (Placeholder(id, "a") + ("b" + (Placeholder(id, "c") + "")))
  {
    var c := "b" + (Placeholder(id, "c") + "");
    assert Flat(Cut("b", "c", End("")), id) == c;
    assert "" + (Placeholder(id, "a") + c) == Placeholder(id, "a") + c;
    assert Flat(Cut("", "a", Cut("b", "c", End(""))), id) == Placeholder(id, "a") + c;
  }

  // ----- contributions without slots -----

  predicate NoNested(acts: seq<Act>, inside: bool)
    decreases acts, 0
  {
    acts == [] || (NoNestedAct(acts[0], inside) && NoNested(acts[1..], inside))
  }

  // No slot is reserved inside a contribution.
  predicate NoNestedAct(a: Act, inside: bool)
    decreases a, 1
  {
    match a
    case Emit(_) => true
    case Yield(_) => !inside
    case Provide(_, body) => NoNested(body, true)
    case Cached(_, _, body) => NoNested(body, inside)
  }

  lemma {:induction false} NoNestedInert(acts: seq<Act>, inside: bool, st: DocRend)
    requires NoNested(acts, inside) && Inert(st.slots)
    ensures Inert(Docs(acts, st).slots) && (inside && st.doc.End? ==> Docs(acts, st).doc.End?)
    decreases acts, 0
  {
    if acts != [] {
      NoNestedActInert(acts[0], inside, st);
      NoNestedInert(acts[1..], inside, DocsAct(acts[0], st));
    }
  }

  lemma {:induction false} NoNestedActInert(a: Act, inside: bool, st: DocRend)
    requires NoNestedAct(a, inside) && Inert(st.slots)
    ensures Inert(DocsAct(a, st).slots) && (inside && st.doc.End? ==> DocsAct(a, st).doc.End?)
    decreases a, 1
  {
    match a {
      case Provide(n, body) =>
        var r := Docs(body, st.(doc := End("")));
        NoNestedInert(body, true, st.(doc := End("")));
        forall k ensures DocOf(ContributeDoc(r.slots, n, r.doc), k).End? { ContributeDocOf(r.slots, n, r.doc, k); }
      case Cached(_, _, body) => NoNestedInert(body, inside, st.(doc := End("")));
      case _ =>
    }
  }

  // With every yield outside the contributions, one condition on the document alone covers every
  // order and repetition of the labels.
  lemma ClearRenderSplices(acts: seq<Act>, id: string)
    requires Plain(id) && PlainActs(acts) && NoNested(acts, false)
    requires var d := Docs(acts, BLANK); Clear(d.doc, (set l | l in d.yielded), d.slots)
    ensures var d := Docs(acts, BLANK); Resolved(Fresh(acts, START, id), id) == Splice(d.doc, d.slots, |d.yielded|)
  {
    var d := Docs(acts, BLANK);
    NoNestedInert(acts, false, BLANK);
    ClearSharply(d.doc, d.yielded, (set l | l in d.yielded), d.slots);
    RenderSplices(acts, id);
  }

  lemma {:induction false} PlainlyAt(steps: seq<Step>, i: nat)
    requires i < |steps| && steps[i].Show?
    ensures |Plainly(steps)| == |steps|
    ensures Plainly(steps)[i] == Resolved(Fresh(steps[i].acts, START, steps[i].id), steps[i].id)
    decreases steps
  {
    PlainlySize(steps);
    if i > 0 { PlainlyAt(steps[1..], i - 1); }
  }

  lemma {:induction false} PlainlySize(steps: seq<Step>)
    ensures |Plainly(steps)| == |steps|
    decreases steps
  {
    if steps != [] { PlainlySize(steps[1..]); }
  }

  // The same of every render in a sequence of renders and invalidations that share a store, where the
  // regions of each key all write one text or all touch the slots.
  lemma StoreSplices(steps: seq<Step>, store: Store, says: Verdicts, i: nat)
    requires Sound(store, says) && (forall s :: s in steps && s.Show? ==> Keyed(s.acts, says))
    requires i < |steps| && steps[i].Show? && Plain(steps[i].id) && PlainActs(steps[i].acts)
    requires var d := Docs(steps[i].acts, BLANK); Sharply(d.doc, d.yielded, d.slots)
    ensures var d := Docs(steps[i].acts, BLANK);
      && |Served(steps, store).0| == |steps|
      && (Served(steps, store).0[i] == Splice(d.doc, d.slots, |d.yielded|)
          <==> Later(Labels(d.doc), d.yielded, d.slots))
  {
    StoreInvisible(steps, store, says);
    PlainlyAt(steps, i);
    RenderSplices(steps[i].acts, steps[i].id);
  }

  // ----- the store and the renderer -----

  class RenderStore {
    var entries: map<string, string>
    var byTag: map<string, set<string>>

    constructor ()
      ensures entries == map[] && byTag == map[]
    {
      entries, byTag := map[], map[];
    }

    function State(): Store
      reads this
    {
      Store(entries, byTag)
    }

    method Put(key: string, body: string, tags: seq<string>)
      modifies this
      ensures State() == Filed(old(State()), key, body, tags)
      ensures entries == old(entries)[key := body]
      ensures forall t :: t in byTag <==> t in old(byTag) || t in tags
      ensures forall t :: t in byTag ==>
        byTag[t] == (if t in old(byTag) then old(byTag)[t] else {}) + (if t in tags then {key} else {})
    {
      entries := entries[key := body];
      for i := 0 to |tags|
        invariant entries == old(entries)[key := body]
        invariant forall t :: t in byTag <==> t in old(byTag) || t in tags[..i]
        invariant forall t :: t in byTag ==>
          byTag[t] == (if t in old(byTag) then old(byTag)[t] else {}) + (if t in tags[..i] then {key} else {})
      {
        assert tags[..i + 1] == tags[..i] + [tags[i]];
        byTag := byTag[tags[i] := (if tags[i] in byTag then byTag[tags[i]] else {}) + {key}];
      }
      assert tags[..|tags|] == tags;
    }

    // Drops every entry ever stored under the tag.
    method InvalidateTag(tag: string)
      modifies this
      ensures State() == Invalidated(old(State()), tag)
      ensures entries == old(entries) - (if tag in old(byTag) then old(byTag)[tag] else {})
      ensures byTag == old(byTag) - {tag}
    {
      var keys := if tag in byTag then byTag[tag] else {};
      var left := keys;
      while left != {}
        invariant left <= keys && byTag == old(byTag)
        invariant entries == old(entries) - (keys - left)
        decreases left
      {
        var k :| k in left;
        entries := entries - {k};
        left := left - {k};
      }
      byTag := byTag - {tag};
    }

    method Clear()
      modifies this
      ensures entries == map[] && byTag == map[]
    {
      entries, byTag := map[], map[];
    }
  }

  class RegionRenderer {
    const id: string
    const store: RenderStore
    var out: string
    var slots: Buffers
    var yielded: seq<string>

    constructor (token: string, shared: RenderStore)
      ensures id == token && store == shared && State() == START
    {
      id, store, out, slots, yielded := token, shared, "", [], [];
    }

    function State(): Rend
      reads this
    {
      Rend(out, slots, yielded)
    }

    method ExecAll(acts: seq<Act>)
      modifies this, store
      ensures (State(), store.State()) == Stored(acts, old(State()), old(store.State()), id)
      decreases acts, 0
    {
      if acts != [] {
        Exec(acts[0]);
        ExecAll(acts[1..]);
      }
    }

    // A body rendered into a sink of its own.
    method Capture(body: seq<Act>) returns (text: string)
      modifies this, store
      ensures out == old(out)
      ensures (State().(out := text), store.State()) == Stored(body, old(State()).(out := ""), old(store.State()), id)
      decreases body, 1
    {
      var saved := out;
      out := "";
      ExecAll(body);
      text := out;
      out := saved;
    }

    method Exec(a: Act)
      modifies this, store
      ensures (State(), store.State()) == StoredAct(a, old(State()), old(store.State()), id)
      decreases a, 2
    {
      match a {
        case Emit(t) => out := out + t;
        case Yield(n) =>
          yielded := yielded + [n];
          out := out + Placeholder(id, n);
        case Provide(n, body) =>
          var text := Capture(body);
          slots := Contribute(slots, n, text);
        case Cached(key, tags, body) =>
          if key in store.entries {
            out := out + store.entries[key];
          } else {
            var before := Stamp(slots);
            var text := Capture(body);
            if !(Stamp(slots) != before || (yielded != [] && Contains(text, Token(id)))) {
              store.Put(key, text, tags);
            }
            out := out + text;
          }
      }
    }

    // The passes over the finished output, one for each reserved label.
    method ResolveSlots() returns (r: string)
      ensures r == Resolved(State(), id)
    {
      r := out;
      for i := 0 to |yielded|
        invariant ResolveFrom(r, yielded[i..], slots, id) == Resolved(State(), id)
      {
        assert yielded[i..][0] == yielded[i] && yielded[i..][1..] == yielded[i + 1..];
        r := ReplaceAll(r, Placeholder(id, yielded[i]), BufferOf(slots, yielded[i]));
      }
      assert yielded[|yielded|..] == [];
    }

    // A render from its fresh state.
    method Finish(acts: seq<Act>) returns (r: string)
      requires State() == START
      modifies this, store
      ensures (State(), store.State()) == Stored(acts, START, old(store.State()), id)
      ensures r == Resolved(State(), id)
    {
      ExecAll(acts);
      r := ResolveSlots();
    }
  }
}
