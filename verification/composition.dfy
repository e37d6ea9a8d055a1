/** Template composition: the inheritance chain and the table of block definitions, built by the
    interpreter at render entry and by the compiler's linker ahead of time. */
module Composition {
  import opened Values

  // One entry of a use's rename map; the malformed ones are the render errors of both builders.
  datatype AliasEntry = Renamed(orig: string, alias: string) | BadValue | BadEntry

  // A use of a trait; the target is absent when it is no constant string.
  datatype Use = Use(target: Option<string>, aliases: seq<AliasEntry>)

  // Dynamic carries the name the operand evaluates to in the render at hand.
  datatype Parent = NoParent | Named(name: string) | Candidates(names: seq<string>) | Dynamic(name: string)

  // blocks holds each defined name once, in first-seen order, with its defining node; bare tells
  // that the body holds nothing but blocks, uses and blank text, and no macro.
  datatype Template = Template(parent: Parent, blocks: seq<(string, nat)>, uses: seq<Use>, bare: bool)

  type Library = map<string, Template>

  datatype Def = Def(owner: string, node: nat)

  // Definitions by block name, most derived first.
  type Table = map<string, seq<Def>>

  datatype LinkError =
    | BadTarget
    | Missing(name: string)
    | NotTrait(name: string)
    | BadAliasValue
    | BadAliasEntry
    | NoTraitBlock(orig: string, trait_: string)
    | NoCandidate
    | TooDeep

  // Rejected is the linker's refusal to compile; Endless is an unbounded recursion of the
  // interpreter, cut off when its fuel runs out.
  datatype Outcome<+T> = Done(value: T) | Fails(error: LinkError) | Rejected | Endless

  const MAX_DEPTH: nat := 64

  predicate Traitable(t: Template) { t.parent.NoParent? && t.bare }

  // ----- the table -----

  function DefsOf(t: Table, name: string): seq<Def> {
    if name in t then t[name] else []
  }

  function AppendDef(t: Table, name: string, d: Def): Table {
    t[name := DefsOf(t, name) + [d]]
  }

  // A template's own blocks, each under its local name.
  function AppendAll(t: Table, owner: string, blocks: seq<(string, nat)>, aliases: map<string, string>): Table
    decreases |blocks|
  {
    if blocks == [] then t
    else
      AppendAll(AppendDef(t, LocalName(blocks[0].0, aliases), Def(owner, blocks[0].1)), owner, blocks[1..], aliases)
  }

  function LocalName(name: string, aliases: map<string, string>): string {
    if name in aliases then aliases[name] else name
  }

  // A later rename of one block replaces an earlier one.
  function AliasMap(es: seq<AliasEntry>): Outcome<map<string, string>> {
    if es == [] then Done(map[])
    else
      match AliasMap(es[..|es| - 1])
      case Done(m) =>
        (match es[|es| - 1]
         case Renamed(o, a) => Done(m[o := a])
         case BadValue => Fails(BadAliasValue)
         case BadEntry => Fails(BadAliasEntry))
      case e => e
  }

  predicate Defines(t: Template, name: string) {
    exists i :: 0 <= i < |t.blocks| && t.blocks[i].0 == name
  }

  // ----- the compiler's linker -----

  // The first rename, in source order, of a block the trait does not define.
  function FirstUndefined(es: seq<AliasEntry>, t: Template): Option<string> {
    if es == [] then None
    else if es[0].Renamed? && !Defines(t, es[0].orig) then Some(es[0].orig)
    else FirstUndefined(es[1..], t)
  }

  function LinkUses(uses: seq<Use>, t: Table, lib: Library, depth: nat): Outcome<Table>
    requires depth <= MAX_DEPTH
    decreases MAX_DEPTH - depth, |uses|, 1
  {
    if uses == [] then Done(t)
    else
      match LinkUse(uses[0], t, lib, depth)
      case Done(t1) => LinkUses(uses[1..], t1, lib, depth)
      case e => e
  }

  function LinkUse(u: Use, t: Table, lib: Library, depth: nat): Outcome<Table>
    requires depth <= MAX_DEPTH
    decreases MAX_DEPTH - depth, 0, 0
  {
    if u.target.None? then Fails(BadTarget)
    else if u.target.value !in lib then Rejected
    else
      var tr := lib[u.target.value];
      if !Traitable(tr) then Fails(NotTrait(u.target.value))
      else if depth == MAX_DEPTH then Rejected
      else
        match LinkUses(tr.uses, t, lib, depth + 1)
        case Done(t1) =>
          (match AliasMap(u.aliases)
           case Done(m) =>
             (match FirstUndefined(u.aliases, tr)
              case None => Done(AppendAll(t1, u.target.value, tr.blocks, m))
              case Some(o) => Fails(NoTraitBlock(o, u.target.value)))
           case Fails(e) => Fails(e)
           case _ => Rejected)
        case e => e
  }

  function LinkTable(chain: seq<string>, t: Table, lib: Library): Outcome<Table>
    requires forall n :: n in chain ==> n in lib
  {
    if chain == [] then Done(t)
    else
      match LinkUses(lib[chain[0]].uses, AppendAll(t, chain[0], lib[chain[0]].blocks, map[]), lib, 0)
      case Done(t1) => LinkTable(chain[1..], t1, lib)
      case e => e
  }

  function LinkChain(chain: seq<string>, lib: Library): (r: Outcome<seq<string>>)
    requires 0 < |chain| <= MAX_DEPTH && forall n :: n in chain ==> n in lib
    ensures r.Done? ==> |r.value| > 0 && forall n :: n in r.value ==> n in lib
    decreases MAX_DEPTH - |chain|
  {
    match lib[chain[|chain| - 1]].parent
    case NoParent => Done(chain)
    case Named(n) => LinkParent(chain, n, lib)
    case Candidates(ns) => if ns == [] then Fails(NoCandidate) else LinkParent(chain, ns[0], lib)
    case Dynamic(_) => Rejected
  }

  function LinkParent(chain: seq<string>, n: string, lib: Library): (r: Outcome<seq<string>>)
    requires 0 < |chain| <= MAX_DEPTH && forall n :: n in chain ==> n in lib
    ensures r.Done? ==> |r.value| > 0 && forall n :: n in r.value ==> n in lib
    decreases MAX_DEPTH - |chain|, 0
  {
    if n !in lib then Rejected
    else if |chain| == MAX_DEPTH then Fails(TooDeep)
    else LinkChain(chain + [n], lib)
  }

  datatype Linked = Linked(chain: seq<string>, table: Table)

  function Link(entry: string, lib: Library): Outcome<Linked> {
    if entry !in lib then Rejected
    else
      match LinkChain([entry], lib)
      case Done(chain) =>
        (match LinkTable(chain, map[], lib)
         case Done(t) => Done(Linked(chain, t))
         case Fails(e) => Fails(e)
         case _ => Rejected)
      case Fails(e) => Fails(e)
      case _ => Rejected
  }

  // ----- the interpreter's builder -----

  // The renames of blocks the trait does not define, reported in no particular order: pick is the
  // one the map iteration meets first.
  function Undefined(m: map<string, string>, t: Template): set<string> {
    set k | k in m && !Defines(t, k)
  }

  type Picker = set<string> -> string

  ghost predicate Picks(pick: Picker) {
    forall s: set<string> :: s != {} ==> pick(s) in s
  }

  // Traits recurse without a bound of their own.
  function RunUses(uses: seq<Use>, t: Table, lib: Library, pick: Picker, fuel: nat): Outcome<Table>
    decreases fuel, |uses|, 1
  {
    if uses == [] then Done(t)
    else
      match RunUse(uses[0], t, lib, pick, fuel)
      case Done(t1) => RunUses(uses[1..], t1, lib, pick, fuel)
      case e => e
  }

  function RunUse(u: Use, t: Table, lib: Library, pick: Picker, fuel: nat): Outcome<Table>
    decreases fuel, 0, 0
  {
    if u.target.None? then Fails(BadTarget)
    else if u.target.value !in lib then Fails(Missing(u.target.value))
    else
      var tr := lib[u.target.value];
      if !Traitable(tr) then Fails(NotTrait(u.target.value))
      else if fuel == 0 then Endless
      else
        match RunUses(tr.uses, t, lib, pick, fuel - 1)
        case Done(t1) =>
          (match AliasMap(u.aliases)
           case Done(m) =>
             if Undefined(m, tr) == {} then Done(AppendAll(t1, u.target.value, tr.blocks, m))
             else Fails(NoTraitBlock(pick(Undefined(m, tr)), u.target.value))
           case Fails(e) => Fails(e)
           case _ => Endless)
        case e => e
  }

  function RunTable(chain: seq<string>, t: Table, lib: Library, pick: Picker, fuel: nat): Outcome<Table>
    requires forall n :: n in chain ==> n in lib
    decreases |chain|
  {
    if chain == [] then Done(t)
    else
      match RunUses(lib[chain[0]].uses, AppendAll(t, chain[0], lib[chain[0]].blocks, map[]), lib, pick, fuel)
      case Done(t1) => RunTable(chain[1..], t1, lib, pick, fuel)
      case e => e
  }

  // The first candidate the loader serves.
  function FirstExisting(ns: seq<string>, lib: Library): Option<string> {
    if ns == [] then None else if ns[0] in lib then Some(ns[0]) else FirstExisting(ns[1..], lib)
  }

  function RunChain(chain: seq<string>, lib: Library): (r: Outcome<seq<string>>)
    requires 0 < |chain| <= MAX_DEPTH && forall n :: n in chain ==> n in lib
    ensures r.Done? ==> |r.value| > 0 && forall n :: n in r.value ==> n in lib
    decreases MAX_DEPTH - |chain|
  {
    match lib[chain[|chain| - 1]].parent
    case NoParent => Done(chain)
    case Named(n) => RunParent(chain, n, lib)
    case Dynamic(n) => RunParent(chain, n, lib)
    case Candidates(ns) =>
      match FirstExisting(ns, lib)
      case None => Fails(NoCandidate)
      case Some(n) => RunParent(chain, n, lib)
  }

  function RunParent(chain: seq<string>, n: string, lib: Library): (r: Outcome<seq<string>>)
    requires 0 < |chain| <= MAX_DEPTH && forall n :: n in chain ==> n in lib
    ensures r.Done? ==> |r.value| > 0 && forall n :: n in r.value ==> n in lib
    decreases MAX_DEPTH - |chain|, 0
  {
    if n !in lib then Fails(Missing(n))
    else if |chain| == MAX_DEPTH then Fails(TooDeep)
    else RunChain(chain + [n], lib)
  }

  // A render's composition of an entry its loader serves.
  function Compose(entry: string, lib: Library, pick: Picker, fuel: nat): Outcome<Linked>
    requires entry in lib
  {
    match RunChain([entry], lib)
    case Done(chain) =>
      (match RunTable(chain, map[], lib, pick, fuel)
       case Done(t) => Done(Linked(chain, t))
       case Fails(e) => Fails(e)
       case _ => Endless)
    case Fails(e) => Fails(e)
    case _ => Endless
  }

  // ----- the two builders agree -----

  // Equal errors, up to which block undefined in the same trait is named.
  predicate SameError(a: LinkError, b: LinkError, lib: Library) {
    a == b || (a.NoTraitBlock? && b.NoTraitBlock? && a.trait_ == b.trait_ && a.trait_ in lib
               && !Defines(lib[a.trait_], a.orig) && !Defines(lib[b.trait_], b.orig))
  }

  predicate Agree<T(==)>(a: Outcome<T>, b: Outcome<T>, lib: Library) {
    (a.Done? && a == b) || (a.Fails? && b.Fails? && SameError(a.error, b.error, lib))
  }

  lemma {:induction false} AliasKeys(es: seq<AliasEntry>, k: string)
    requires AliasMap(es).Done?
    ensures k in AliasMap(es).value <==> exists i :: 0 <= i < |es| && es[i].Renamed? && es[i].orig == k
  {
    if es != [] {
      var init := es[..|es| - 1];
      AliasKeys(init, k);
      assert forall i :: 0 <= i < |init| ==> es[i] == init[i];
    }
  }

  // The first malformed entry decides the error.
  lemma {:induction false} MalformedAlias(es: seq<AliasEntry>, i: nat)
    requires i <= |es| && (forall j :: 0 <= j < i ==> es[j].Renamed?) && (i < |es| ==> !es[i].Renamed?)
    ensures if i == |es| then AliasMap(es).Done?
      else AliasMap(es) == Fails(if es[i] == BadValue then BadAliasValue else BadAliasEntry)
    decreases |es|
  {
    if es != [] { MalformedAlias(es[..|es| - 1], if i == |es| then i - 1 else i); }
  }

  lemma {:induction false} FirstUndefinedFacts(es: seq<AliasEntry>, t: Template)
    ensures FirstUndefined(es, t).None? <==> forall i :: 0 <= i < |es| && es[i].Renamed? ==> Defines(t, es[i].orig)
  {
    if es != [] {
      FirstUndefinedFacts(es[1..], t);
      assert forall i :: 0 <= i < |es| - 1 ==> es[1..][i] == es[i + 1];
      assert forall i :: 0 < i < |es| ==> es[i] == es[1..][i - 1];
    }
  }

  lemma {:induction false} FirstUndefinedIs(es: seq<AliasEntry>, t: Template)
    requires FirstUndefined(es, t).Some?
    ensures !Defines(t, FirstUndefined(es, t).value)
  {
    if !es[0].Renamed? || Defines(t, es[0].orig) { FirstUndefinedIs(es[1..], t); }
  }

  lemma UndefinedSame(es: seq<AliasEntry>, t: Template)
    requires AliasMap(es).Done?
    ensures FirstUndefined(es, t).None? <==> Undefined(AliasMap(es).value, t) == {}
    ensures FirstUndefined(es, t).Some? ==> !Defines(t, FirstUndefined(es, t).value)
  {
    if FirstUndefined(es, t).Some? { FirstUndefinedIs(es, t); }
    var m := AliasMap(es).value;
    FirstUndefinedFacts(es, t);
    forall k ensures k in m <==> exists i :: 0 <= i < |es| && es[i].Renamed? && es[i].orig == k { AliasKeys(es, k); }
    if FirstUndefined(es, t).Some? {
      var i :| 0 <= i < |es| && es[i].Renamed? && !Defines(t, es[i].orig);
      assert es[i].orig in Undefined(m, t);
    }
  }

  // Whenever the linker does not refuse, the interpreter computes the same table or raises the same
  // error, with any fuel that covers the linker's nesting bound.
  lemma {:induction false} UsesAgree(uses: seq<Use>, t: Table, lib: Library, pick: Picker, depth: nat, fuel: nat)
    requires Picks(pick) && depth <= MAX_DEPTH <= depth + fuel && !LinkUses(uses, t, lib, depth).Rejected?
    ensures Agree(LinkUses(uses, t, lib, depth), RunUses(uses, t, lib, pick, fuel), lib)
    decreases MAX_DEPTH - depth, |uses|, 1
  {
    if uses != [] {
      UseAgree(uses[0], t, lib, pick, depth, fuel);
      var r := LinkUse(uses[0], t, lib, depth);
      if r.Done? { UsesAgree(uses[1..], r.value, lib, pick, depth, fuel); }
    }
  }

  lemma {:induction false} UseAgree(u: Use, t: Table, lib: Library, pick: Picker, depth: nat, fuel: nat)
    requires Picks(pick) && depth <= MAX_DEPTH <= depth + fuel && !LinkUse(u, t, lib, depth).Rejected?
    ensures Agree(LinkUse(u, t, lib, depth), RunUse(u, t, lib, pick, fuel), lib)
    decreases MAX_DEPTH - depth, 0, 0
  {
    if u.target.Some? && u.target.value in lib {
      var tr := lib[u.target.value];
      if Traitable(tr) && depth < MAX_DEPTH {
        UsesAgree(tr.uses, t, lib, pick, depth + 1, fuel - 1);
        if AliasMap(u.aliases).Done? { UndefinedSame(u.aliases, tr); }
      }
    }
  }

  lemma {:induction false} TableAgree(chain: seq<string>, t: Table, lib: Library, pick: Picker, fuel: nat)
    requires Picks(pick) && (forall n :: n in chain ==> n in lib) && fuel >= MAX_DEPTH
    requires !LinkTable(chain, t, lib).Rejected?
    ensures Agree(LinkTable(chain, t, lib), RunTable(chain, t, lib, pick, fuel), lib)
    decreases |chain|
  {
    if chain != [] {
      var t0 := AppendAll(t, chain[0], lib[chain[0]].blocks, map[]);
      UsesAgree(lib[chain[0]].uses, t0, lib, pick, 0, fuel);
      var r := LinkUses(lib[chain[0]].uses, t0, lib, 0);
      if r.Done? { TableAgree(chain[1..], r.value, lib, pick, fuel); }
    }
  }

  lemma {:induction false} ChainAgree(chain: seq<string>, lib: Library)
    requires 0 < |chain| <= MAX_DEPTH && (forall n :: n in chain ==> n in lib) && !LinkChain(chain, lib).Rejected?
    ensures LinkChain(chain, lib) == RunChain(chain, lib) && !LinkChain(chain, lib).Endless?
    decreases MAX_DEPTH - |chain|
  {
    match lib[chain[|chain| - 1]].parent {
      case Named(n) => if n in lib && |chain| < MAX_DEPTH { ChainAgree(chain + [n], lib); }
      case Candidates(ns) => if ns != [] && |chain| < MAX_DEPTH { ChainAgree(chain + [ns[0]], lib); }
      case _ =>
    }
  }

  // Every composition the linker does not refuse is the one the interpreter builds.
  lemma AcceptedAgrees(entry: string, lib: Library, pick: Picker, fuel: nat)
    requires entry in lib && fuel >= MAX_DEPTH && Picks(pick) && !Link(entry, lib).Rejected?
    ensures Agree(Link(entry, lib), Compose(entry, lib, pick, fuel), lib)
  {
    ChainAgree([entry], lib);
    var c := LinkChain([entry], lib);
    if c.Done? { TableAgree(c.value, map[], lib, pick, fuel); }
  }

  // ----- the sets the linker never refuses -----

  predicate ParentClosed(p: Parent, lib: Library) {
    match p
    case NoParent => true
    case Named(n) => n in lib
    case Candidates(ns) => ns == [] || ns[0] in lib
    case Dynamic(_) => false
  }

  predicate UsesClosed(uses: seq<Use>, r: nat, lib: Library, rank: map<string, nat>) {
    forall i :: 0 <= i < |uses| && uses[i].target.Some? ==>
      uses[i].target.value in lib && uses[i].target.value in rank && rank[uses[i].target.value] < r
  }

  // A closed static template set: every parent and every use is served by the set itself, and the
  // uses nest without a cycle, at most MAX_DEPTH deep.  The use targets may be malformed, be no
  // traits, or carry malformed renames: those are errors, not refusals.
  ghost predicate ClosedSet(lib: Library, rank: map<string, nat>) {
    forall n :: n in lib ==>
      && ParentClosed(lib[n].parent, lib)
      && n in rank && rank[n] <= MAX_DEPTH && UsesClosed(lib[n].uses, rank[n], lib, rank)
  }

  lemma {:induction false} UsesNotRejected(uses: seq<Use>, r: nat, t: Table, lib: Library, depth: nat,
                                           rank: map<string, nat>)
    requires ClosedSet(lib, rank) && UsesClosed(uses, r, lib, rank) && r + depth <= MAX_DEPTH
    ensures LinkUses(uses, t, lib, depth).Done? || LinkUses(uses, t, lib, depth).Fails?
    decreases r, |uses|
  {
    if uses != [] {
      var u := uses[0];
      if u.target.Some? && Traitable(lib[u.target.value]) {
        UsesNotRejected(lib[u.target.value].uses, rank[u.target.value], t, lib, depth + 1, rank);
        AliasOutcome(u.aliases);
      }
      var m := LinkUse(u, t, lib, depth);
      if m.Done? {
        assert UsesClosed(uses[1..], r, lib, rank);
        UsesNotRejected(uses[1..], r, m.value, lib, depth, rank);
      }
    }
  }

  lemma {:induction false} AliasOutcome(es: seq<AliasEntry>)
    ensures AliasMap(es).Done? || AliasMap(es).Fails?
  {
    if es != [] { AliasOutcome(es[..|es| - 1]); }
  }

  lemma {:induction false} TableNotRejected(chain: seq<string>, t: Table, lib: Library, rank: map<string, nat>)
    requires ClosedSet(lib, rank) && forall n :: n in chain ==> n in lib
    ensures LinkTable(chain, t, lib).Done? || LinkTable(chain, t, lib).Fails?
    decreases |chain|
  {
    if chain != [] {
      var t0 := AppendAll(t, chain[0], lib[chain[0]].blocks, map[]);
      UsesNotRejected(lib[chain[0]].uses, rank[chain[0]], t0, lib, 0, rank);
      var u := LinkUses(lib[chain[0]].uses, t0, lib, 0);
      if u.Done? { TableNotRejected(chain[1..], u.value, lib, rank); }
    }
  }

  lemma {:induction false} ChainNotRejected(chain: seq<string>, lib: Library, rank: map<string, nat>)
    requires 0 < |chain| <= MAX_DEPTH && (forall n :: n in chain ==> n in lib) && ClosedSet(lib, rank)
    ensures LinkChain(chain, lib).Done? || LinkChain(chain, lib).Fails?
    decreases MAX_DEPTH - |chain|
  {
    match lib[chain[|chain| - 1]].parent {
      case Named(n) => if |chain| < MAX_DEPTH { ChainNotRejected(chain + [n], lib, rank); }
      case Candidates(ns) => if ns != [] && |chain| < MAX_DEPTH { ChainNotRejected(chain + [ns[0]], lib, rank); }
      case _ =>
    }
  }

  lemma LinkNotRejected(entry: string, lib: Library, rank: map<string, nat>)
    requires entry in lib && ClosedSet(lib, rank)
    ensures Link(entry, lib).Done? || Link(entry, lib).Fails?
  {
    ChainNotRejected([entry], lib, rank);
    var c := LinkChain([entry], lib);
    if c.Done? { TableNotRejected(c.value, map[], lib, rank); }
  }

  // On every closed static set the linker and the render-time builder agree: the same chain, the
  // same ordered definitions of every name, the same first error, up to which undefined block of a
  // trait is named.
  lemma LinkAgrees(entry: string, lib: Library, rank: map<string, nat>, pick: Picker, fuel: nat)
    requires entry in lib && ClosedSet(lib, rank) && Picks(pick) && fuel >= MAX_DEPTH
    ensures Agree(Link(entry, lib), Compose(entry, lib, pick, fuel), lib)
  {
    LinkNotRejected(entry, lib, rank);
    AcceptedAgrees(entry, lib, pick, fuel);
  }

  // ----- what the table holds -----

  function OwnDefs(owner: string, blocks: seq<(string, nat)>, aliases: map<string, string>, name: string): seq<Def> {
    if blocks == [] then []
    else
      (if LocalName(blocks[0].0, aliases) == name then [Def(owner, blocks[0].1)] else [])
      + OwnDefs(owner, blocks[1..], aliases, name)
  }

  // The definitions a list of uses contributes to a name: for each use in source order, what the
  // trait itself uses, then the trait's own blocks under their local names.
  function UsedDefs(uses: seq<Use>, name: string, lib: Library, fuel: nat): seq<Def>
    decreases fuel, |uses|
  {
    if uses == [] then []
    else
      (match uses[0].target
       case Some(n) =>
         if n in lib && fuel > 0 && AliasMap(uses[0].aliases).Done? then
           UsedDefs(lib[n].uses, name, lib, fuel - 1) + OwnDefs(n, lib[n].blocks, AliasMap(uses[0].aliases).value, name)
         else []
       case None => [])
      + UsedDefs(uses[1..], name, lib, fuel)
  }

  // The definitions of a name along a chain: each member's own, then those of its traits.
  function ChainDefs(chain: seq<string>, name: string, lib: Library): seq<Def> {
    if chain == [] then []
    else
      (if chain[0] in lib then
         OwnDefs(chain[0], lib[chain[0]].blocks, map[], name) + UsedDefs(lib[chain[0]].uses, name, lib, MAX_DEPTH)
       else [])
      + ChainDefs(chain[1..], name, lib)
  }

  lemma {:induction false} AppendAllDefs(t: Table, owner: string, blocks: seq<(string, nat)>, aliases: map<string,
                                         string>, name: string)
    ensures DefsOf(AppendAll(t, owner, blocks, aliases), name) == DefsOf(t, name) + OwnDefs(owner, blocks, aliases,
        name)
    decreases |blocks|
  {
    if blocks != [] {
      AppendAllDefs(AppendDef(t, LocalName(blocks[0].0, aliases), Def(owner, blocks[0].1)), owner, blocks[1..],
                    aliases, name);
    }
  }

  lemma Assoc(a: seq<Def>, b: seq<Def>, c: seq<Def>, d: seq<Def>)
    ensures ((a + b) + c) + d == a + ((b + c) + d)
  {
  }

  lemma {:induction false} LinkUsesDefs(uses: seq<Use>, t: Table, lib: Library, depth: nat, name: string)
    requires depth <= MAX_DEPTH && LinkUses(uses, t, lib, depth).Done?
    ensures DefsOf(LinkUses(uses, t, lib, depth).value, name) == DefsOf(t, name) + UsedDefs(uses, name, lib,
        MAX_DEPTH - depth)
    decreases MAX_DEPTH - depth, |uses|
  {
    if uses != [] {
      var u := uses[0];
      var tr := lib[u.target.value];
      var t1 := LinkUses(tr.uses, t, lib, depth + 1).value;
      var t2 := LinkUse(u, t, lib, depth).value;
      LinkUsesDefs(tr.uses, t, lib, depth + 1, name);
      AppendAllDefs(t1, u.target.value, tr.blocks, AliasMap(u.aliases).value, name);
      LinkUsesDefs(uses[1..], t2, lib, depth, name);
      Assoc(DefsOf(t, name), UsedDefs(tr.uses, name, lib, MAX_DEPTH - depth - 1),
            OwnDefs(u.target.value, tr.blocks, AliasMap(u.aliases).value, name),
                UsedDefs(uses[1..], name, lib, MAX_DEPTH - depth));
    } else {
      assert DefsOf(t, name) + [] == DefsOf(t, name);
    }
  }

  lemma LinkTableStep(chain: seq<string>, t: Table, lib: Library)
    requires chain != [] && (forall n :: n in chain ==> n in lib) && LinkTable(chain, t, lib).Done?
    ensures var u := LinkUses(lib[chain[0]].uses, AppendAll(t, chain[0], lib[chain[0]].blocks, map[]), lib, 0);
      u.Done? && LinkTable(chain, t, lib) == LinkTable(chain[1..], u.value, lib)
  {
  }

  lemma {:induction false} LinkTableDefs(chain: seq<string>, t: Table, lib: Library, name: string)
    requires (forall n :: n in chain ==> n in lib) && LinkTable(chain, t, lib).Done?
    ensures DefsOf(LinkTable(chain, t, lib).value, name) == DefsOf(t, name) + ChainDefs(chain, name, lib)
    decreases |chain|
  {
    if chain != [] {
      var t0 := AppendAll(t, chain[0], lib[chain[0]].blocks, map[]);
      LinkTableStep(chain, t, lib);
      AppendAllDefs(t, chain[0], lib[chain[0]].blocks, map[], name);
      LinkUsesDefs(lib[chain[0]].uses, t0, lib, 0, name);
      LinkTableDefs(chain[1..], LinkUses(lib[chain[0]].uses, t0, lib, 0).value, lib, name);
      Assoc(DefsOf(t, name), OwnDefs(chain[0], lib[chain[0]].blocks, map[], name),
            UsedDefs(lib[chain[0]].uses, name, lib, MAX_DEPTH), ChainDefs(chain[1..], name, lib));
    } else {
      assert DefsOf(t, name) + [] == DefsOf(t, name);
    }
  }

  // The linked table lists, for every name, exactly the closed-form definitions in order.
  lemma LinkedDefs(entry: string, lib: Library, name: string)
    requires Link(entry, lib).Done?
    ensures var l := Link(entry, lib).value; DefsOf(l.table, name) == ChainDefs(l.chain, name, lib)
  {
    LinkTableDefs(LinkChain([entry], lib).value, map[], lib, name);
  }

  // ----- where a used block lands -----

  // Entry i is the last rename of the block.
  predicate LastFor(es: seq<AliasEntry>, i: int, block: string) {
    && 0 <= i < |es| && es[i].Renamed? && es[i].orig == block
    && forall j :: i < j < |es| && es[j].Renamed? ==> es[j].orig != block
  }

  predicate Unrenamed(es: seq<AliasEntry>, block: string) {
    forall i :: 0 <= i < |es| && es[i].Renamed? ==> es[i].orig != block
  }

  // On the entries of a use: the last rename of a block gives its local name, and a block that no entry
  // renames keeps its own.
  ghost predicate Lands(es: seq<AliasEntry>, block: string, name: string) {
    (exists i :: LastFor(es, i, block) && es[i].alias == name) || (block == name && Unrenamed(es, block))
  }

  lemma {:induction false} AliasValue(es: seq<AliasEntry>, block: string)
    requires AliasMap(es).Done?
    ensures var m := AliasMap(es).value;
      && (block in m <==> !Unrenamed(es, block)) && (block in m ==> exists i :: LastFor(es, i, block))
      && forall i :: LastFor(es, i, block) ==> block in m && m[block] == es[i].alias
    decreases |es|
  {
    if es != [] {
      var init, last := es[..|es| - 1], es[|es| - 1];
      AliasValue(init, block);
      assert es == init + [last];
      if last.orig == block {
        assert LastFor(es, |es| - 1, block);
      } else {
        forall i ensures LastFor(es, i, block) <==> LastFor(init, i, block) { }
        if i :| LastFor(init, i, block) { assert LastFor(es, i, block); }
      }
    }
  }

  lemma AliasLands(es: seq<AliasEntry>, block: string, name: string)
    requires AliasMap(es).Done?
    ensures LocalName(block, AliasMap(es).value) == name <==> Lands(es, block, name)
  {
    AliasValue(es, block);
  }

  // One of the trait's own blocks lands under the name.
  ghost predicate GivesOwn(n: string, t: Template, es: seq<AliasEntry>, name: string, d: Def) {
    exists k :: 0 <= k < |t.blocks| && d == Def(n, t.blocks[k].1) && Lands(es, t.blocks[k].0, name)
  }

  // A definition some use in the list brings in: a block of the trait itself, or of a use of the trait.
  ghost predicate Gives(uses: seq<Use>, name: string, lib: Library, fuel: nat, d: Def)
    decreases fuel, 0
  {
    fuel > 0
    && exists i :: 0 <= i < |uses| && GivenBy(uses[i], name, lib, fuel - 1, d)
  }

  ghost predicate GivenBy(u: Use, name: string, lib: Library, fuel: nat, d: Def)
    decreases fuel, 1
  {
    && u.target.Some? && u.target.value in lib
    && (GivesOwn(u.target.value, lib[u.target.value], u.aliases, name, d)
        || Gives(lib[u.target.value].uses, name, lib, fuel, d))
  }

  lemma {:induction false} OwnMembers(n: string, blocks: seq<(string, nat)>, es: seq<AliasEntry>, name: string, d: Def)
    requires AliasMap(es).Done?
    ensures d in OwnDefs(n, blocks, AliasMap(es).value, name)
      <==> exists k :: 0 <= k < |blocks| && d == Def(n, blocks[k].1) && Lands(es, blocks[k].0, name)
  {
    if blocks != [] {
      OwnMembers(n, blocks[1..], es, name, d);
      AliasLands(es, blocks[0].0, name);
      if k :| 0 <= k < |blocks[1..]| && d == Def(n, blocks[1..][k].1) && Lands(es, blocks[1..][k].0, name) {
        assert blocks[k + 1] == blocks[1..][k];
      }
      if k :| 0 < k < |blocks| && d == Def(n, blocks[k].1) && Lands(es, blocks[k].0, name) {
        assert blocks[1..][k - 1] == blocks[k];
      }
    }
  }

  // Linking a list of uses adds to each name exactly the definitions that land there.
  lemma {:induction false} LinkUsesMembers(uses: seq<Use>, t: Table, lib: Library, depth: nat, name: string, d: Def)
    requires depth <= MAX_DEPTH && LinkUses(uses, t, lib, depth).Done?
    ensures d in DefsOf(LinkUses(uses, t, lib, depth).value, name)
      <==> d in DefsOf(t, name) || Gives(uses, name, lib, MAX_DEPTH - depth, d)
    decreases MAX_DEPTH - depth, |uses|
  {
    if uses != [] {
      var t1 := LinkUse(uses[0], t, lib, depth).value;
      LinkUseMembers(uses[0], t, lib, depth, name, d);
      LinkUsesMembers(uses[1..], t1, lib, depth, name, d);
      var fuel := MAX_DEPTH - depth;
      if i :| 0 <= i < |uses[1..]| && GivenBy(uses[1..][i], name, lib, fuel - 1, d) {
        assert uses[i + 1] == uses[1..][i];
      }
      if i :| 0 < i < |uses| && GivenBy(uses[i], name, lib, fuel - 1, d) { assert uses[1..][i - 1] == uses[i]; }
    }
  }

  lemma {:induction false} LinkUseMembers(u: Use, t: Table, lib: Library, depth: nat, name: string, d: Def)
    requires depth <= MAX_DEPTH && LinkUse(u, t, lib, depth).Done?
    ensures depth < MAX_DEPTH
    ensures d in DefsOf(LinkUse(u, t, lib, depth).value, name)
      <==> d in DefsOf(t, name) || GivenBy(u, name, lib, MAX_DEPTH - depth - 1, d)
    decreases MAX_DEPTH - depth, 0
  {
    var n, tr := u.target.value, lib[u.target.value];
    var t1 := LinkUses(tr.uses, t, lib, depth + 1).value;
    LinkUsesMembers(tr.uses, t, lib, depth + 1, name, d);
    AppendAllDefs(t1, n, tr.blocks, AliasMap(u.aliases).value, name);
    OwnMembers(n, tr.blocks, u.aliases, name, d);
  }

  // The definitions of a name in a linked table: the blocks of that name in the templates of the chain,
  // and those that the uses of these bring in under it.
  ghost predicate ChainGives(chain: seq<string>, name: string, lib: Library, d: Def) {
    exists i :: 0 <= i < |chain| && MemberGives(chain[i], name, lib, d)
  }

  ghost predicate MemberGives(n: string, name: string, lib: Library, d: Def) {
    n in lib && (GivesOwn(n, lib[n], [], name, d) || Gives(lib[n].uses, name, lib, MAX_DEPTH, d))
  }

  lemma {:induction false} TableMembers(chain: seq<string>, t: Table, lib: Library, name: string, d: Def)
    requires (forall n :: n in chain ==> n in lib) && LinkTable(chain, t, lib).Done?
    ensures d in DefsOf(LinkTable(chain, t, lib).value, name) <==> d in DefsOf(t, name) || ChainGives(chain, name, lib,
        d)
    decreases |chain|
  {
    if chain != [] {
      var n := chain[0];
      var t0 := AppendAll(t, n, lib[n].blocks, map[]);
      var t1 := LinkUses(lib[n].uses, t0, lib, 0).value;
      LinkTableStep(chain, t, lib);
      AppendAllDefs(t, n, lib[n].blocks, map[], name);
      assert AliasMap([]) == Done(map[]);
      OwnMembers(n, lib[n].blocks, [], name, d);
      LinkUsesMembers(lib[n].uses, t0, lib, 0, name, d);
      TableMembers(chain[1..], t1, lib, name, d);
      if i :| 0 <= i < |chain[1..]| && MemberGives(chain[1..][i], name, lib, d) {
        assert chain[i + 1] == chain[1..][i];
      }
      if i :| 0 < i < |chain| && MemberGives(chain[i], name, lib, d) { assert chain[1..][i - 1] == chain[i]; }
    }
  }

  lemma LinkedMembers(entry: string, lib: Library, name: string, d: Def)
    requires Link(entry, lib).Done?
    ensures var l := Link(entry, lib).value; d in DefsOf(l.table, name) <==> ChainGives(l.chain, name, lib, d)
  {
    TableMembers(LinkChain([entry], lib).value, map[], lib, name, d);
  }

  // What a use that links demands of its trait: no parent, nothing but blocks in its body, and every
  // renamed block defined.
  lemma LinkedTrait(u: Use, t: Table, lib: Library, depth: nat)
    requires depth <= MAX_DEPTH && u.target.Some? && u.target.value in lib
    ensures var tr := lib[u.target.value];
      && (tr.parent != NoParent || !tr.bare ==> LinkUse(u, t, lib, depth) == Fails(NotTrait(u.target.value)))
      && (LinkUse(u, t, lib, depth).Done? ==>
            forall i :: 0 <= i < |u.aliases| && u.aliases[i].Renamed? ==>
              exists k :: 0 <= k < |tr.blocks| && tr.blocks[k].0 == u.aliases[i].orig)
  {
    FirstUndefinedFacts(u.aliases, lib[u.target.value]);
  }

  // A page that uses a trait under a rename has the block under the new name only.
  lemma RenamedBlock()
    ensures var page := Template(NoParent, [], [Use(Some("t"), [Renamed("b", "c")])], true);
      var lib := map["page" := page, "t" := Template(NoParent, [("b", 1)], [], true)];
      && Link("page", lib).Done?
      && Def("t", 1) in DefsOf(Link("page", lib).value.table, "c")
      && DefsOf(Link("page", lib).value.table, "b") == []
  {
    var u := Use(Some("t"), [Renamed("b", "c")]);
    var page, tr := Template(NoParent, [], [u], true), Template(NoParent, [("b", 1)], [], true);
    var lib, none: Table := map["page" := page, "t" := tr], map[];
    assert u.aliases[..0] == [] && AliasMap(u.aliases) == Done(map["b" := "c"]);
    assert [("b", 1)][1..] == [];
    var t1 := AppendDef(none, "c", Def("t", 1));
    assert AppendAll(none, "t", tr.blocks, map["b" := "c"]) == t1;
    assert LinkUses(tr.uses, none, lib, 1) == Done(none);
    assert Defines(tr, "b") by { assert tr.blocks[0].0 == "b"; }
    assert u.aliases[1..] == [] && FirstUndefined(u.aliases, tr) == None;
    assert LinkUse(u, none, lib, 0) == Done(t1);
    OneUse(u, none, lib, 0);
    assert ["page"][1..] == [] && LinkTable(["page"], none, lib) == Done(t1);
    assert Link("page", lib).value.table == t1;
  }

  // ----- who wins inside a trait -----

  lemma {:induction false} OwnOwner(owner: string, blocks: seq<(string, nat)>, aliases: map<string, string>,
                                    name: string)
    ensures forall d :: d in OwnDefs(owner, blocks, aliases, name) ==> d.owner == owner
  {
    if blocks != [] { OwnOwner(owner, blocks[1..], aliases, name); }
  }

  // What uses below a rank contribute is owned below that rank.
  lemma {:induction false} UsedRank(uses: seq<Use>, r: nat, name: string, lib: Library, fuel: nat,
                                    rank: map<string, nat>)
    requires ClosedSet(lib, rank) && UsesClosed(uses, r, lib, rank)
    ensures forall d :: d in UsedDefs(uses, name, lib, fuel) ==> d.owner in rank && rank[d.owner] < r
    decreases fuel, |uses|
  {
    if uses != [] {
      var u := uses[0];
      if u.target.Some? && fuel > 0 && AliasMap(u.aliases).Done? {
        UsedRank(lib[u.target.value].uses, rank[u.target.value], name, lib, fuel - 1, rank);
        OwnOwner(u.target.value, lib[u.target.value].blocks, AliasMap(u.aliases).value, name);
      }
      assert UsesClosed(uses[1..], r, lib, rank);
      UsedRank(uses[1..], r, name, lib, fuel, rank);
    }
  }

  // What a use adds under a name.
  function GivenDefs(u: Use, name: string, lib: Library, depth: nat): seq<Def>
    requires depth < MAX_DEPTH && u.target.Some? && u.target.value in lib && AliasMap(u.aliases).Done?
  {
    UsedDefs(lib[u.target.value].uses, name, lib, MAX_DEPTH - depth - 1)
    + OwnDefs(u.target.value, lib[u.target.value].blocks, AliasMap(u.aliases).value, name)
  }

  lemma LinkUseDefs(u: Use, t: Table, lib: Library, depth: nat, name: string)
    requires depth <= MAX_DEPTH && LinkUse(u, t, lib, depth).Done?
    ensures depth < MAX_DEPTH && u.target.Some? && u.target.value in lib && AliasMap(u.aliases).Done?
    ensures DefsOf(LinkUse(u, t, lib, depth).value, name) == DefsOf(t, name) + GivenDefs(u, name, lib, depth)
  {
    var n, tr := u.target.value, lib[u.target.value];
    LinkUsesDefs(tr.uses, t, lib, depth + 1, name);
    AppendAllDefs(LinkUses(tr.uses, t, lib, depth + 1).value, n, tr.blocks, AliasMap(u.aliases).value, name);
  }

  lemma FirstOwner(n: string, used: seq<Def>, own: seq<Def>)
    requires own != [] && (forall d :: d in own ==> d.owner == n) && forall d :: d in used ==> d.owner != n
    ensures (used + own)[0].owner == n <==> used == []
  {
    assert own[0] in own;
    if used != [] { assert used[0] in used; }
  }

  // A use of a trait that defines a name itself, where nothing earlier does: the trait's own block is
  // the one in force exactly when the traits it uses in turn contribute none of that name.
  lemma OwnBlockWins(u: Use, t: Table, lib: Library, depth: nat, name: string, rank: map<string, nat>)
    requires ClosedSet(lib, rank) && depth < MAX_DEPTH && LinkUse(u, t, lib, depth).Done? && DefsOf(t, name) == []
    requires u.target.Some? && u.target.value in lib && AliasMap(u.aliases).Done?
    requires OwnDefs(u.target.value, lib[u.target.value].blocks, AliasMap(u.aliases).value, name) != []
    ensures var ds := DefsOf(LinkUse(u, t, lib, depth).value, name);
      ds != []
      && (ds[0].owner == u.target.value
          <==> UsedDefs(lib[u.target.value].uses, name, lib, MAX_DEPTH - depth - 1) == [])
  {
    var n, tr := u.target.value, lib[u.target.value];
    var used := UsedDefs(tr.uses, name, lib, MAX_DEPTH - depth - 1);
    LinkUseDefs(u, t, lib, depth, name);
    OwnOwner(n, tr.blocks, AliasMap(u.aliases).value, name);
    UsedRank(tr.uses, rank[n], name, lib, MAX_DEPTH - depth - 1, rank);
    FirstOwner(n, used, OwnDefs(n, tr.blocks, AliasMap(u.aliases).value, name));
  }

  // A page that uses a trait, which defines a block and uses a trait that defines it as well: the
  // inner definition comes first.
  lemma InnerTraitWins()
    ensures var page := Template(NoParent, [], [Use(Some("outer"), [])], true);
      var outer := Template(NoParent, [("b", 1)], [Use(Some("inner"), [])], true);
      var lib := map["page" := page, "outer" := outer, "inner" := Template(NoParent, [("b", 2)], [], true)];
      && Link("page", lib).Done?
      && DefsOf(Link("page", lib).value.table, "b") == [Def("inner", 2), Def("outer", 1)]
  {
    var page := Template(NoParent, [], [Use(Some("outer"), [])], true);
    var outer := Template(NoParent, [("b", 1)], [Use(Some("inner"), [])], true);
    var lib := map["page" := page, "outer" := outer, "inner" := Template(NoParent, [("b", 2)], [], true)];
    var none: Table := map[];
    var inner, both := map["b" := [Def("inner", 2)]], map["b" := [Def("inner", 2), Def("outer", 1)]];
    OneBlock("inner", 2, map[]);
    OneBlock("outer", 1, inner);
    OneUse(outer.uses[0], map[], lib, 1);
    OneUse(page.uses[0], map[], lib, 0);
    assert outer.uses == [outer.uses[0]] && page.uses == [page.uses[0]];
    assert LinkUses(lib["inner"].uses, map[], lib, 2) == Done(map[]);
    assert AliasMap([]) == Done(map[]);
    assert inner["b"] + [Def("outer", 1)] == both["b"] && DefsOf(none, "b") + [Def("inner", 2)] == inner["b"];
    assert none["b" := inner["b"]] == inner;
    assert LinkUse(outer.uses[0], map[], lib, 1) == Done(inner);
    assert inner["b" := both["b"]] == both;
    assert LinkUse(page.uses[0], map[], lib, 0) == Done(both);
    assert ["page"][1..] == [] && LinkTable(["page"], map[], lib) == Done(both);
  }

  lemma OneBlock(owner: string, node: nat, t: Table)
    ensures AppendAll(t, owner, [("b", node)], map[]) == t["b" := DefsOf(t, "b") + [Def(owner, node)]]
  {
    assert [("b", node)][1..] == [];
  }

  lemma OneUse(u: Use, t: Table, lib: Library, depth: nat)
    requires depth <= MAX_DEPTH
    ensures LinkUses([u], t, lib, depth) == LinkUse(u, t, lib, depth)
  {
    assert [u][1..] == [];
  }

  // ----- the linker as it runs -----

  // What a step of the linker reports: success, a recorded render error, or a refusal.
  datatype Report = Linking | Stub(error: LinkError) | Refused

  ghost predicate Reports(r: Report, blocks: Table, o: Outcome<Table>) {
    match o
    case Done(t) => r == Linking && blocks == t
    case Fails(e) => r == Stub(e)
    case _ => r == Refused
  }

  class Linker {
    const lib: Library
    var blocks: Table

    constructor (templates: Library)
      ensures lib == templates && blocks == map[]
    {
      lib, blocks := templates, map[];
    }

    method AppendBlockDef(name: string, d: Def)
      modifies this
      ensures blocks == AppendDef(old(blocks), name, d)
    {
      if name in blocks {
        blocks := blocks[name := blocks[name] + [d]];
      } else {
        blocks := blocks[name := [d]];
        assert [] + [d] == [d];
      }
    }

    method AppendBlocks(owner: string, defs: seq<(string, nat)>, aliases: map<string, string>)
      modifies this
      ensures blocks == AppendAll(old(blocks), owner, defs, aliases)
    {
      assert defs[0..] == defs;
      for i := 0 to |defs|
        invariant AppendAll(blocks, owner, defs[i..], aliases) == AppendAll(old(blocks), owner, defs, aliases)
      {
        AppendBlockDef(LocalName(defs[i].0, aliases), Def(owner, defs[i].1));
        assert defs[i..][1..] == defs[i + 1..];
      }
    }

    // Pulls in the traits of one template, in source order.
    method MergeTraits(uses: seq<Use>, depth: nat) returns (r: Report)
      requires depth <= MAX_DEPTH
      modifies this
      ensures Reports(r, blocks, LinkUses(uses, old(blocks), lib, depth))
      decreases MAX_DEPTH - depth, 1
    {
      assert uses[0..] == uses;
      for i := 0 to |uses|
        invariant LinkUses(uses[i..], blocks, lib, depth) == LinkUses(uses, old(blocks), lib, depth)
      {
        assert uses[i..][1..] == uses[i + 1..];
        var step := MergeTrait(uses[i], depth);
        if !step.Linking? { return step; }
      }
      r := Linking;
    }

    method MergeTrait(u: Use, depth: nat) returns (r: Report)
      requires depth <= MAX_DEPTH
      modifies this
      ensures Reports(r, blocks, LinkUse(u, old(blocks), lib, depth))
      decreases MAX_DEPTH - depth, 0
    {
      if u.target.None? { return Stub(BadTarget); }
      var name := u.target.value;
      if name !in lib { return Refused; }
      var tr := lib[name];
      if !Traitable(tr) { return Stub(NotTrait(name)); }
      if depth == MAX_DEPTH { return Refused; }
      r := MergeTraits(tr.uses, depth + 1);
      if !r.Linking? { return; }
      var m := AliasMap(u.aliases);
      if m.Fails? { return Stub(m.error); }
      if !m.Done? { return Refused; }
      AppendBlocks(name, tr.blocks, m.value);
      var bad := FirstUndefined(u.aliases, tr);
      if bad.Some? { return Stub(NoTraitBlock(bad.value, name)); }
    }

    // The whole table: every chain member's own blocks, then its traits.
    method BuildTable(chain: seq<string>) returns (r: Report)
      requires blocks == map[] && forall n :: n in chain ==> n in lib
      modifies this
      ensures Reports(r, blocks, LinkTable(chain, map[], lib))
    {
      assert chain[0..] == chain;
      for i := 0 to |chain|
        invariant LinkTable(chain[i..], blocks, lib) == LinkTable(chain, map[], lib)
      {
        assert chain[i..][1..] == chain[i + 1..];
        AppendBlocks(chain[i], lib[chain[i]].blocks, map[]);
        r := MergeTraits(lib[chain[i]].uses, 0);
        if !r.Linking? { return; }
      }
      r := Linking;
    }
  }
}
