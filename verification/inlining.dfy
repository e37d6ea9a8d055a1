/** Block rendering: the interpreter's saved and restored current block against the compiler's
    inlining of block bodies under a compile-time context stack. */
module Inlining {
  import opened Values
  import opened Composition

  // A block body.  Super, Call and CallOf print the captured output of parent(), block(name) and
  // block(name, other).
  datatype Item =
    | Text(s: string)
    | Show(x: string)
    | Let(x: string, s: string)
    | When(x: string, body: seq<Item>)
    | Site(name: string, own: seq<Item>)
    | Super
    | Call(name: string)
    | CallOf(name: string, other: string)

  // The linked templates: the block table, the body of each defining node, and the blocks each
  // template defines itself.
  datatype Unit = Unit(table: Table, bodies: map<nat, seq<Item>>, own: map<string, map<string, nat>>)
  {
    function Body(node: nat): seq<Item> { if node in bodies then bodies[node] else [] }
  }

  datatype BlockError = NoParentBlock | NoBlock(name: string) | NoTemplate(name: string) | NoBlockIn(other: string,
      name: string)

  // The block being rendered: its definitions, and how far up the chain.
  datatype Ctx = Ctx(chain: seq<Def>, depth: nat)

  type Env = map<string, string>

  // ----- the interpreter -----

  datatype St = St(env: Env, out: string, cur: Option<Ctx>)

  datatype RenderR = ROk(st: St) | RErr(e: BlockError, partial: string) | REndless

  function Render(items: seq<Item>, u: Unit, st: St, fuel: nat): RenderR
    decreases fuel, 1, items, 0
  {
    if items == [] then ROk(st)
    else
      match RenderItem(items[0], u, st, fuel)
      case ROk(st1) => Render(items[1..], u, st1, fuel)
      case r => r
  }

  function RenderItem(i: Item, u: Unit, st: St, fuel: nat): RenderR
    decreases fuel, 1, i, 1
  {
    match i
    case Text(s) => ROk(st.(out := st.out + s))
    case Show(x) => ROk(st.(out := st.out + Lookup1(st.env, x)))
    case Let(x, s) => ROk(st.(env := st.env[x := s]))
    case When(x, body) => if x in st.env then Render(body, u, st, fuel) else ROk(st)
    case Site(name, own) => if name in u.table then RenderAt(u.table[name], 0, u, st, fuel) else Render(own, u, st,
        fuel)
    case Super =>
      if st.cur.None? then RErr(NoParentBlock, st.out)
      else Captured(RenderAt(st.cur.value.chain, st.cur.value.depth + 1, u, st.(out := ""), fuel), st.out)
    case Call(name) =>
      if name in u.table then Captured(RenderAt(u.table[name], 0, u, st.(out := ""), fuel), st.out)
      else RErr(NoBlock(name), st.out)
    case CallOf(name, other) =>
      if other !in u.own then RErr(NoTemplate(other), st.out)
      else if name !in u.own[other] then RErr(NoBlockIn(other, name), st.out)
      else if fuel == 0 then REndless
      else Captured(Render(u.Body(u.own[other][name]), u, st.(out := ""), fuel - 1), st.out)
  }

  function Lookup1(env: Env, x: string): string { if x in env then env[x] else "" }

  // The captured output is printed where the call stood.
  function Captured(r: RenderR, out: string): RenderR {
    match r
    case ROk(st) => ROk(st.(out := out + st.out))
    case RErr(e, _) => RErr(e, out)
    case REndless => REndless
  }

  // The depth-th definition of a chain, with the current block switched for its duration.
  function RenderAt(chain: seq<Def>, depth: nat, u: Unit, st: St, fuel: nat): RenderR
    decreases fuel, 0
  {
    if depth >= |chain| then ROk(st)
    else if fuel == 0 then REndless
    else
      match Render(u.Body(chain[depth].node), u, st.(cur := Some(Ctx(chain, depth))), fuel - 1)
      case ROk(st1) => ROk(st1.(cur := st.cur))
      case r => r
  }

  // ----- the compiled form -----

  datatype Instr =
    | CText(s: string)
    | CShow(x: string)
    | CLet(x: string, s: string)
    | CWhen(x: string, code: seq<Instr>)
    | CCapture(code: seq<Instr>)
    | CRaise(e: BlockError)

  datatype ExecR = EOk(env: Env, out: string) | EErr(e: BlockError, partial: string)

  function Exec(code: seq<Instr>, env: Env, out: string): ExecR
    decreases code, 0
  {
    if code == [] then EOk(env, out)
    else
      match ExecInstr(code[0], env, out)
      case EOk(env1, out1) => Exec(code[1..], env1, out1)
      case r => r
  }

  function ExecInstr(c: Instr, env: Env, out: string): ExecR
    decreases c, 1
  {
    match c
    case CText(s) => EOk(env, out + s)
    case CShow(x) => EOk(env, out + Lookup1(env, x))
    case CLet(x, s) => EOk(env[x := s], out)
    case CWhen(x, code) => if x in env then Exec(code, env, out) else EOk(env, out)
    case CCapture(code) =>
      (match Exec(code, env, "")
       case EOk(env1, text) => EOk(env1, out + text)
       case EErr(e, _) => EErr(e, out))
    case CRaise(e) => EErr(e, out)
  }

  // ----- inlining -----

  // Code, a refusal to compile (a template outside the unit, inlining past the bound), or no end.
  datatype InlineR = Code(code: seq<Instr>) | Outside | TooDeepToInline | Unending

  function Join(a: InlineR, b: InlineR): InlineR {
    if !a.Code? then a else if !b.Code? then b else Code(a.code + b.code)
  }

  function Wrap(r: InlineR, f: seq<Instr> -> Instr): InlineR {
    if r.Code? then Code([f(r.code)]) else r
  }

  function Top(ctx: seq<Ctx>): Option<Ctx> {
    if ctx == [] then None else Some(ctx[|ctx| - 1])
  }

  // used counts the block bodies being inlined around this point.
  function Inline(items: seq<Item>, u: Unit, ctx: seq<Ctx>, used: nat, fuel: nat): InlineR
    decreases fuel, 1, items, 0
  {
    if items == [] then Code([])
    else Join(InlineItem(items[0], u, ctx, used, fuel), Inline(items[1..], u, ctx, used, fuel))
  }

  function InlineItem(i: Item, u: Unit, ctx: seq<Ctx>, used: nat, fuel: nat): InlineR
    decreases fuel, 1, i, 1
  {
    match i
    case Text(s) => Code([CText(s)])
    case Show(x) => Code([CShow(x)])
    case Let(x, s) => Code([CLet(x, s)])
    case When(x, body) => Wrap(Inline(body, u, ctx, used, fuel), code => CWhen(x, code))
    case Site(name, own) =>
      if name in u.table then InlineAt(u.table[name], 0, u, ctx, used, fuel) else Inline(own, u, ctx, used, fuel)
    case Super =>
      if ctx == [] then Code([CRaise(NoParentBlock)])
      else Wrap(InlineAt(Top(ctx).value.chain, Top(ctx).value.depth + 1, u, ctx, used, fuel), code => CCapture(code))
    case Call(name) =>
      if name in u.table then Wrap(InlineAt(u.table[name], 0, u, ctx, used, fuel), code => CCapture(code))
      else Code([CRaise(NoBlock(name))])
    case CallOf(name, other) =>
      if other !in u.own then Outside
      else if name !in u.own[other] then Code([CRaise(NoBlockIn(other, name))])
      else if fuel == 0 then Unending
      else Wrap(Inline(u.Body(u.own[other][name]), u, ctx, used, fuel - 1), code => CCapture(code))
  }

  function InlineAt(chain: seq<Def>, depth: nat, u: Unit, ctx: seq<Ctx>, used: nat, fuel: nat): InlineR
    decreases fuel, 0
  {
    if depth >= |chain| then Code([])
    else if used >= MAX_DEPTH then TooDeepToInline
    else if fuel == 0 then Unending
    else Inline(u.Body(chain[depth].node), u, ctx + [Ctx(chain, depth)], used + 1, fuel - 1)
  }

  // ----- agreement -----

  // The compiled code does what the interpreter does, from a state whose current block is the
  // context the code was inlined under, and the current block is back in place afterwards.
  ghost predicate Matches(r: RenderR, x: ExecR, cur: Option<Ctx>) {
    match x
    case EOk(env, out) => r == ROk(St(env, out, cur))
    case EErr(e, o) => r == RErr(e, o)
  }

  lemma {:induction false} ExecAppend(a: seq<Instr>, b: seq<Instr>, env: Env, out: string)
    ensures Exec(a + b, env, out)
         == match Exec(a, env, out) case EOk(env1, out1) => Exec(b, env1, out1) case r => r
    decreases a
  {
    if a == [] {
      assert a + b == b;
    } else {
      assert (a + b)[0] == a[0] && (a + b)[1..] == a[1..] + b;
      var r := ExecInstr(a[0], env, out);
      if r.EOk? { ExecAppend(a[1..], b, r.env, r.out); }
    }
  }

  lemma ExecOne(c: Instr, env: Env, out: string)
    ensures Exec([c], env, out) == ExecInstr(c, env, out)
  {
    assert [c][1..] == [];
  }

  lemma {:induction false} InlineAgrees(items: seq<Item>, u: Unit, ctx: seq<Ctx>, used: nat, st: St, fuel: nat)
    requires Inline(items, u, ctx, used, fuel).Code? && st.cur == Top(ctx)
    ensures Matches(Render(items, u, st, fuel), Exec(Inline(items, u, ctx, used, fuel).code, st.env, st.out), st.cur)
    decreases fuel, 1, items, 0
  {
    if items != [] {
      var a, b := InlineItem(items[0], u, ctx, used, fuel), Inline(items[1..], u, ctx, used, fuel);
      ItemAgrees(items[0], u, ctx, used, st, fuel);
      ExecAppend(a.code, b.code, st.env, st.out);
      var x := Exec(a.code, st.env, st.out);
      if x.EOk? { InlineAgrees(items[1..], u, ctx, used, St(x.env, x.out, st.cur), fuel); }
    }
  }

  lemma {:induction false} ItemAgrees(i: Item, u: Unit, ctx: seq<Ctx>, used: nat, st: St, fuel: nat)
    requires InlineItem(i, u, ctx, used, fuel).Code? && st.cur == Top(ctx)
    ensures Matches(RenderItem(i, u, st, fuel), Exec(InlineItem(i, u, ctx, used, fuel).code, st.env, st.out), st.cur)
    decreases fuel, 1, i, 1
  {
    var code := InlineItem(i, u, ctx, used, fuel).code;
    if |code| == 1 { assert code == [code[0]]; ExecOne(code[0], st.env, st.out); }
    match i {
      case When(x, body) => if x in st.env { InlineAgrees(body, u, ctx, used, st, fuel); }
      case Site(name, own) =>
        if name in u.table { AtAgrees(u.table[name], 0, u, ctx, used, st, fuel); }
        else { InlineAgrees(own, u, ctx, used, st, fuel); }
      case Super =>
        if ctx != [] { AtAgrees(Top(ctx).value.chain, Top(ctx).value.depth + 1, u, ctx, used, st.(out := ""), fuel); }
      case Call(name) => if name in u.table { AtAgrees(u.table[name], 0, u, ctx, used, st.(out := ""), fuel); }
      case CallOf(name, other) =>
        if name in u.own[other] { InlineAgrees(u.Body(u.own[other][name]), u, ctx, used, st.(out := ""), fuel - 1); }
      case _ =>
    }
  }

  lemma {:induction false} AtAgrees(chain: seq<Def>, depth: nat, u: Unit, ctx: seq<Ctx>, used: nat, st: St, fuel: nat)
    requires InlineAt(chain, depth, u, ctx, used, fuel).Code? && st.cur == Top(ctx)
    ensures Matches(RenderAt(chain, depth, u, st, fuel), Exec(InlineAt(chain, depth, u, ctx, used, fuel).code, st.env,
                                                              st.out), st.cur)
    decreases fuel, 0
  {
    if depth < |chain| {
      var ctx1 := ctx + [Ctx(chain, depth)];
      InlineAgrees(u.Body(chain[depth].node), u, ctx1, used + 1, st.(cur := Some(Ctx(chain, depth))), fuel - 1);
    }
  }

  // A whole unit: the topmost template's statements, outside any block.
  lemma UnitAgrees(items: seq<Item>, u: Unit, env: Env, fuel: nat)
    requires Inline(items, u, [], 0, fuel).Code?
    ensures Matches(Render(items, u, St(env, "", None), fuel), Exec(Inline(items, u, [], 0, fuel).code, env, ""), None)
  {
    InlineAgrees(items, u, [], 0, St(env, "", None), fuel);
  }

  // ----- the bound -----

  // More fuel changes nothing once inlining ended.
  lemma {:induction false} InlineMore(items: seq<Item>, u: Unit, ctx: seq<Ctx>, used: nat, fuel: nat, more: nat)
    requires !Inline(items, u, ctx, used, fuel).Unending? && fuel <= more
    ensures Inline(items, u, ctx, used, more) == Inline(items, u, ctx, used, fuel)
    decreases fuel, 1, items, 0
  {
    if items != [] {
      var a := InlineItem(items[0], u, ctx, used, fuel);
      ItemMore(items[0], u, ctx, used, fuel, more);
      if a.Code? { InlineMore(items[1..], u, ctx, used, fuel, more); }
    }
  }

  lemma {:induction false} ItemMore(i: Item, u: Unit, ctx: seq<Ctx>, used: nat, fuel: nat, more: nat)
    requires !InlineItem(i, u, ctx, used, fuel).Unending? && fuel <= more
    ensures InlineItem(i, u, ctx, used, more) == InlineItem(i, u, ctx, used, fuel)
    decreases fuel, 1, i, 1
  {
    match i {
      case When(_, body) => InlineMore(body, u, ctx, used, fuel, more);
      case Site(name, own) =>
        if name in u.table { AtMore(u.table[name], 0, u, ctx, used, fuel, more); }
        else { InlineMore(own, u, ctx, used, fuel, more); }
      case Super => if ctx != [] { AtMore(Top(ctx).value.chain, Top(ctx).value.depth + 1, u, ctx, used, fuel, more); }
      case Call(name) => if name in u.table { AtMore(u.table[name], 0, u, ctx, used, fuel, more); }
      case CallOf(name, other) =>
        if other in u.own && name in u.own[other] {
          InlineMore(u.Body(u.own[other][name]), u, ctx, used, fuel - 1, more - 1);
        }
      case _ =>
    }
  }

  lemma {:induction false} AtMore(chain: seq<Def>, depth: nat, u: Unit, ctx: seq<Ctx>, used: nat, fuel: nat, more: nat)
    requires !InlineAt(chain, depth, u, ctx, used, fuel).Unending? && fuel <= more
    ensures InlineAt(chain, depth, u, ctx, used, more) == InlineAt(chain, depth, u, ctx, used, fuel)
    decreases fuel, 0
  {
    if depth < |chain| && used < MAX_DEPTH {
      InlineMore(u.Body(chain[depth].node), u, ctx + [Ctx(chain, depth)], used + 1, fuel - 1, more - 1);
    }
  }

  // A body whose only composition is parent().
  predicate ParentOnly(items: seq<Item>)
    decreases items, 0
  {
    items == [] || (ParentOnlyItem(items[0]) && ParentOnly(items[1..]))
  }

  predicate ParentOnlyItem(i: Item)
    decreases i, 1
  {
    match i
    case When(_, body) => ParentOnly(body)
    case Site(_, _) => false
    case Call(_) => false
    case CallOf(_, _) => false
    case _ => true
  }

  // Chains of parent() end: a chain within the bound is inlined whole.
  lemma {:induction false} ParentsEnd(chain: seq<Def>, depth: nat, u: Unit, ctx: seq<Ctx>, used: nat, fuel: nat)
    requires forall i :: 0 <= i < |chain| ==> ParentOnly(u.Body(chain[i].node))
    requires used + (|chain| - depth) <= MAX_DEPTH && |chain| - depth <= fuel
    ensures InlineAt(chain, depth, u, ctx, used, fuel).Code?
    decreases fuel, 0
  {
    if depth < |chain| {
      ParentBody(u.Body(chain[depth].node), chain, depth, u, ctx + [Ctx(chain, depth)], used + 1, fuel - 1);
    }
  }

  lemma {:induction false} ParentBody(items: seq<Item>, chain: seq<Def>, depth: nat, u: Unit, ctx: seq<Ctx>, used: nat,
                                      fuel: nat)
    requires forall i :: 0 <= i < |chain| ==> ParentOnly(u.Body(chain[i].node))
    requires ParentOnly(items) && Top(ctx) == Some(Ctx(chain, depth)) && depth < |chain|
    requires used + (|chain| - depth - 1) <= MAX_DEPTH && |chain| - depth - 1 <= fuel
    ensures Inline(items, u, ctx, used, fuel).Code?
    decreases fuel, 1, items
  {
    if items != [] {
      match items[0] {
        case When(_, body) => ParentBody(body, chain, depth, u, ctx, used, fuel);
        case Super => ParentsEnd(chain, depth + 1, u, ctx, used, fuel);
        case _ =>
      }
      ParentBody(items[1..], chain, depth, u, ctx, used, fuel);
    }
  }

  // ----- when inlining ends -----

  // block(name, other) spends none of the bound: a body that names itself is inlined forever, though
  // the interpreter never enters it.
  const SELF_CALL: seq<Item> := [When("x", [CallOf("a", "t")])]
  const CYCLE: Unit := Unit(map[], map[0 := SELF_CALL], map["t" := map["a" := 0]])

  lemma {:induction false} SelfCallUnending(env: Env, fuel: nat)
    requires "x" !in env
    ensures Inline(SELF_CALL, CYCLE, [], 0, fuel).Unending?
    ensures Render(SELF_CALL, CYCLE, St(env, "", None), 1) == ROk(St(env, "", None))
  {
    assert CYCLE.Body(0) == SELF_CALL;
    if fuel > 0 { SelfCallUnending(env, fuel - 1); }
    var inner := InlineItem(CallOf("a", "t"), CYCLE, [], 0, fuel);
    assert inner.Unending?;
    assert Inline([CallOf("a", "t")], CYCLE, [], 0, fuel)
        == Join(inner, Inline([CallOf("a", "t")][1..], CYCLE, [], 0, fuel));
    assert InlineItem(SELF_CALL[0], CYCLE, [], 0, fuel) == Wrap(Inline([CallOf("a", "t")], CYCLE, [], 0, fuel),
                                                                code => CWhen("x", code));
  }

  // A variable shows its value, and nothing when it has none; a condition asks whether it has one.
  lemma ShowsValue(x: string, body: seq<Item>, u: Unit, st: St, fuel: nat)
    ensures x in st.env ==> RenderItem(Show(x), u, st, fuel) == ROk(st.(out := st.out + st.env[x]))
    ensures x !in st.env ==> RenderItem(Show(x), u, st, fuel) == ROk(st)
    ensures RenderItem(When(x, body), u, st, fuel) == if x in st.env then Render(body, u, st, fuel) else ROk(st)
  {
    assert st.out + "" == st.out;
  }

  // A block site renders the body of its most derived definition in place, with that definition current
  // meanwhile; a block without one renders the body written at the site.
  lemma SiteRenders(name: string, own: seq<Item>, u: Unit, st: St, fuel: nat)
    ensures name !in u.table ==> RenderItem(Site(name, own), u, st, fuel) == Render(own, u, st, fuel)
    ensures name in u.table && u.table[name] != [] && u.table[name][0].node in u.bodies ==>
      var r := Render(u.bodies[u.table[name][0].node], u, st.(cur := Some(Ctx(u.table[name], 0))), fuel);
      RenderItem(Site(name, own), u, st, fuel + 1) == if r.ROk? then ROk(r.st.(cur := st.cur)) else r
  {
  }

  // parent() prints what the next definition of the current block renders, and nothing behind the last.
  lemma ParentRenders(u: Unit, st: St, fuel: nat)
    requires st.cur.Some?
    ensures var c := st.cur.value;
      c.depth + 1 < |c.chain| && c.chain[c.depth + 1].node in u.bodies ==>
        var r := Render(u.bodies[c.chain[c.depth + 1].node], u, St(st.env, "", Some(Ctx(c.chain, c.depth + 1))), fuel);
        r.ROk? ==> RenderItem(Super, u, st, fuel + 1) == ROk(St(r.st.env, st.out + r.st.out, st.cur))
    ensures st.cur.value.depth + 1 >= |st.cur.value.chain| ==> RenderItem(Super, u, st, fuel) == ROk(st)
  {
    assert st.out + "" == st.out;
  }

  // A nested body inlining comes to: its items and the context they are inlined under.
  datatype Nested = Nested(items: seq<Item>, ctx: seq<Ctx>, used: nat)

  ghost predicate Ends(n: Nested, u: Unit) {
    exists fuel: nat :: !Inline(n.items, u, n.ctx, n.used, fuel).Unending?
  }

  ghost predicate EndsInCode(i: Item, u: Unit, ctx: seq<Ctx>, used: nat) {
    exists fuel: nat :: InlineItem(i, u, ctx, used, fuel).Code?
  }

  // Inlining these items comes to the nested body: everything before it inlines to code.
  ghost predicate Visits(items: seq<Item>, u: Unit, ctx: seq<Ctx>, used: nat, n: Nested)
    decreases items, 0
  {
    items != []
    && (VisitsItem(items[0], u, ctx, used, n) || (EndsInCode(items[0], u, ctx, used)
                                                  && Visits(items[1..], u, ctx, used, n)))
  }

  ghost predicate VisitsItem(i: Item, u: Unit, ctx: seq<Ctx>, used: nat, n: Nested)
    decreases i, 1
  {
    match i
    case When(_, body) => Visits(body, u, ctx, used, n)
    case Site(name, own) => if name in u.table then At(u.table[name], 0, u, ctx, used, n) else Visits(own, u, ctx,
        used, n)
    case Super => ctx != [] && At(Top(ctx).value.chain, Top(ctx).value.depth + 1, u, ctx, used, n)
    case Call(name) => name in u.table && At(u.table[name], 0, u, ctx, used, n)
    case CallOf(name, other) => other in u.own && name in u.own[other]
        && n == Nested(u.Body(u.own[other][name]), ctx, used)
    case _ => false
  }

  predicate At(chain: seq<Def>, depth: nat, u: Unit, ctx: seq<Ctx>, used: nat, n: Nested) {
    depth < |chain| && used < MAX_DEPTH && n == Nested(u.Body(chain[depth].node), ctx + [Ctx(chain, depth)], used + 1)
  }

  // A nested body ends one level below the body that comes to it.
  lemma {:induction false} VisitEnds(items: seq<Item>, u: Unit, ctx: seq<Ctx>, used: nat, n: Nested, fuel: nat)
    requires Visits(items, u, ctx, used, n) && !Inline(items, u, ctx, used, fuel).Unending?
    ensures fuel > 0 && !Inline(n.items, u, n.ctx, n.used, fuel - 1).Unending?
    decreases items, 0
  {
    if VisitsItem(items[0], u, ctx, used, n) {
      VisitItemEnds(items[0], u, ctx, used, n, fuel);
    } else {
      var f: nat :| InlineItem(items[0], u, ctx, used, f).Code?;
      if f <= fuel { ItemMore(items[0], u, ctx, used, f, fuel); } else { ItemMore(items[0], u, ctx, used, fuel, f); }
      VisitEnds(items[1..], u, ctx, used, n, fuel);
    }
  }

  lemma {:induction false} VisitItemEnds(i: Item, u: Unit, ctx: seq<Ctx>, used: nat, n: Nested, fuel: nat)
    requires VisitsItem(i, u, ctx, used, n) && !InlineItem(i, u, ctx, used, fuel).Unending?
    ensures fuel > 0 && !Inline(n.items, u, n.ctx, n.used, fuel - 1).Unending?
    decreases i, 1
  {
    match i {
      case When(_, body) => VisitEnds(body, u, ctx, used, n, fuel);
      case Site(name, own) => if name !in u.table { VisitEnds(own, u, ctx, used, n, fuel); }
      case _ =>
    }
  }

  // Items whose inlining has no end come to a nested body whose inlining has none.
  lemma {:induction false} UnendingVisits(items: seq<Item>, u: Unit, ctx: seq<Ctx>, used: nat) returns (n: Nested)
    requires !Ends(Nested(items, ctx, used), u)
    ensures Visits(items, u, ctx, used, n) && !Ends(n, u)
    decreases items, 0
  {
    if items == [] {
      assert Inline(items, u, ctx, used, 0).Code?;
      assert Ends(Nested(items, ctx, used), u);
    } else if exists f: nat :: !InlineItem(items[0], u, ctx, used, f).Unending? {
      var f: nat :| !InlineItem(items[0], u, ctx, used, f).Unending?;
      assert Inline(items, u, ctx, used, f).Unending?;
      assert InlineItem(items[0], u, ctx, used, f).Code?;
      forall g: nat ensures Inline(items[1..], u, ctx, used, g).Unending? { RestUnending(items, u, ctx, used, f, g); }
      n := UnendingVisits(items[1..], u, ctx, used);
    } else {
      n := UnendingItemVisits(items[0], u, ctx, used);
    }
  }

  lemma RestUnending(items: seq<Item>, u: Unit, ctx: seq<Ctx>, used: nat, f: nat, g: nat)
    requires items != [] && InlineItem(items[0], u, ctx, used, f).Code?
    requires Inline(items, u, ctx, used, f + g).Unending?
    ensures Inline(items[1..], u, ctx, used, g).Unending?
  {
    if !Inline(items[1..], u, ctx, used, g).Unending? {
      ItemMore(items[0], u, ctx, used, f, f + g);
      InlineMore(items[1..], u, ctx, used, g, f + g);
    }
  }

  lemma {:induction false} UnendingItemVisits(i: Item, u: Unit, ctx: seq<Ctx>, used: nat) returns (n: Nested)
    requires forall f: nat :: InlineItem(i, u, ctx, used, f).Unending?
    ensures VisitsItem(i, u, ctx, used, n) && !Ends(n, u)
    decreases i, 1
  {
    assert InlineItem(i, u, ctx, used, 0).Unending?;
    match i {
      case When(_, body) =>
        forall f: nat ensures Inline(body, u, ctx, used, f).Unending? {
          assert InlineItem(i, u, ctx, used, f).Unending?;
        }
        n := UnendingVisits(body, u, ctx, used);
      case Site(name, own) =>
        if name in u.table { n := UnendingAt(i, u.table[name], 0, u, ctx, used); }
        else {
          forall f: nat ensures Inline(own, u, ctx, used, f).Unending? {
            assert InlineItem(i, u, ctx, used, f).Unending?;
          }
          n := UnendingVisits(own, u, ctx, used);
        }
      case Super => n := UnendingAt(i, Top(ctx).value.chain, Top(ctx).value.depth + 1, u, ctx, used);
      case Call(name) => n := UnendingAt(i, u.table[name], 0, u, ctx, used);
      case CallOf(name, other) =>
        n := Nested(u.Body(u.own[other][name]), ctx, used);
        forall f: nat ensures Inline(n.items, u, n.ctx, n.used, f).Unending? {
          assert InlineItem(i, u, ctx, used, f + 1).Unending?;
        }
    }
  }

  lemma UnendingAt(i: Item, chain: seq<Def>, depth: nat, u: Unit, ctx: seq<Ctx>, used: nat) returns (n: Nested)
    requires forall f: nat :: InlineItem(i, u, ctx, used, f).Unending?
    requires forall f: nat :: InlineItem(i, u, ctx, used, f).Unending? ==>
        InlineAt(chain, depth, u, ctx, used, f).Unending?
    ensures At(chain, depth, u, ctx, used, n) && !Ends(n, u)
  {
    assert InlineItem(i, u, ctx, used, 0).Unending?;
    n := Nested(u.Body(chain[depth].node), ctx + [Ctx(chain, depth)], used + 1);
    forall f: nat ensures Inline(n.items, u, n.ctx, n.used, f).Unending? {
      assert InlineItem(i, u, ctx, used, f + 1).Unending?;
    }
  }

  // Each body of the path comes to the next.
  ghost predicate Path(p: seq<Nested>, u: Unit) {
    p != [] && forall k :: 0 < k < |p| ==> Visits(p[k - 1].items, u, p[k - 1].ctx, p[k - 1].used, p[k])
  }

  // A path that comes back to where it was.
  ghost predicate Returns(p: seq<Nested>, u: Unit) {
    Path(p, u) && exists i :: 0 <= i < |p| - 1 && p[i] == p[|p| - 1]
  }

  lemma {:induction false} PathEnds(p: seq<Nested>, i: nat, j: nat, u: Unit, fuel: nat)
    requires Path(p, u) && i <= j < |p| && !Inline(p[i].items, u, p[i].ctx, p[i].used, fuel).Unending?
    ensures j - i <= fuel && !Inline(p[j].items, u, p[j].ctx, p[j].used, fuel - (j - i)).Unending?
    decreases j - i
  {
    if i < j {
      VisitEnds(p[i].items, u, p[i].ctx, p[i].used, p[i + 1], fuel);
      PathEnds(p, i + 1, j, u, fuel - 1);
    }
  }

  lemma {:induction false} ReturnUnending(p: seq<Nested>, u: Unit, i: nat, fuel: nat)
    requires Path(p, u) && i < |p| - 1 && p[i] == p[|p| - 1]
    ensures Inline(p[i].items, u, p[i].ctx, p[i].used, fuel).Unending?
    decreases fuel
  {
    if !Inline(p[i].items, u, p[i].ctx, p[i].used, fuel).Unending? {
      PathEnds(p, i, |p| - 1, u, fuel);
      ReturnUnending(p, u, i, fuel - (|p| - 1 - i));
    }
  }

  // The bodies block(name, other) can name.
  function Targets(u: Unit): set<seq<Item>> {
    set t, b | t in u.own && b in u.own[t] :: u.Body(u.own[t][b])
  }

  // A visit either spends some of the bound, or is a named body under the same context.
  lemma {:induction false} VisitKinds(items: seq<Item>, u: Unit, ctx: seq<Ctx>, used: nat, n: Nested)
    requires Visits(items, u, ctx, used, n)
    ensures (used < MAX_DEPTH && n.used == used + 1) || (n.ctx == ctx && n.used == used && n.items in Targets(u))
    decreases items, 0
  {
    if VisitsItem(items[0], u, ctx, used, n) {
      match items[0] {
        case When(_, body) => VisitKinds(body, u, ctx, used, n);
        case Site(name, own) => if name !in u.table { VisitKinds(own, u, ctx, used, n); }
        case _ =>
      }
    } else {
      VisitKinds(items[1..], u, ctx, used, n);
    }
  }

  // Following bodies without an end leads back to one of them: seen are the named bodies visited
  // since the bound was last spent.
  lemma {:induction false} UnendingReturns(p: seq<Nested>, seen: set<seq<Item>>, u: Unit) returns (q: seq<Nested>)
    requires Path(p, u) && !Ends(p[|p| - 1], u) && p[|p| - 1].used <= MAX_DEPTH && seen <= Targets(u)
    requires forall b :: b in seen ==> Nested(b, p[|p| - 1].ctx, p[|p| - 1].used) in p
    ensures Returns(q, u) && q[0] == p[0]
    decreases MAX_DEPTH - p[|p| - 1].used, Targets(u) - seen
  {
    var last := p[|p| - 1];
    var n := UnendingVisits(last.items, u, last.ctx, last.used);
    VisitKinds(last.items, u, last.ctx, last.used, n);
    var next := p + [n];
    if n.used == last.used + 1 {
      q := UnendingReturns(next, {}, u);
    } else if n in p {
      var i :| 0 <= i < |p| && p[i] == n;
      assert next[i] == next[|next| - 1];
      q := next;
    } else {
      assert n.items !in seen;
      q := UnendingReturns(next, seen + {n.items}, u);
    }
  }

  // Inlining ends exactly when no path of nested bodies returns: since every block rendered spends
  // the bound, such a path is a cycle of block(name, other) calls.
  lemma EndsExactly(items: seq<Item>, u: Unit)
    ensures Ends(Nested(items, [], 0), u) <==> !exists p :: Returns(p, u) && p[0] == Nested(items, [], 0)
  {
    var n := Nested(items, [], 0);
    if !Ends(n, u) {
      var q := UnendingReturns([n], {}, u);
    }
    if p :| Returns(p, u) && p[0] == n {
      var i :| 0 <= i < |p| - 1 && p[i] == p[|p| - 1];
      if fuel: nat :| !Inline(items, u, [], 0, fuel).Unending? {
        PathEnds(p, 0, i, u, fuel);
        ReturnUnending(p, u, i, fuel - i);
      }
    }
  }

  // Nothing is spent along the part of a path that returns.
  lemma {:induction false} ReturnSpendsNothing(p: seq<Nested>, u: Unit, i: nat, k: nat)
    requires Path(p, u) && i < |p| - 1 && p[i] == p[|p| - 1] && i < k < |p|
    ensures p[k].used == p[i].used && p[k].ctx == p[i].ctx && p[k].items in Targets(u)
  {
    UsedGrows(p, u, i, k - 1);
    UsedGrows(p, u, k - 1, k);
    UsedGrows(p, u, k, |p| - 1);
    VisitKinds(p[k - 1].items, u, p[k - 1].ctx, p[k - 1].used, p[k]);
    if k - 1 > i { ReturnSpendsNothing(p, u, i, k - 1); }
  }

  lemma {:induction false} UsedGrows(p: seq<Nested>, u: Unit, i: nat, j: nat)
    requires Path(p, u) && i <= j < |p|
    ensures p[i].used <= p[j].used
    decreases j - i
  {
    if i < j {
      VisitKinds(p[i].items, u, p[i].ctx, p[i].used, p[i + 1]);
      UsedGrows(p, u, i + 1, j);
    }
  }

  // ----- a check on the text alone -----

  // The bodies that items name by block(name, other), conditions and unlisted sites included.
  function NamedBodies(items: seq<Item>, u: Unit): set<seq<Item>>
    decreases items, 0
  {
    if items == [] then {} else NamedBy(items[0], u) + NamedBodies(items[1..], u)
  }

  function NamedBy(i: Item, u: Unit): set<seq<Item>>
    decreases i, 1
  {
    match i
    case When(_, body) => NamedBodies(body, u)
    case Site(_, own) => NamedBodies(own, u)
    case CallOf(name, other) => if other in u.own && name in u.own[other] then {u.Body(u.own[other][name])} else {}
    case _ => {}
  }

  lemma {:induction false} FreeVisitNamed(items: seq<Item>, u: Unit, ctx: seq<Ctx>, used: nat, n: Nested)
    requires Visits(items, u, ctx, used, n) && n.used == used
    ensures n.items in NamedBodies(items, u)
    decreases items, 0
  {
    if VisitsItem(items[0], u, ctx, used, n) {
      match items[0] {
        case When(_, body) => FreeVisitNamed(body, u, ctx, used, n);
        case Site(name, own) => if name !in u.table { FreeVisitNamed(own, u, ctx, used, n); }
        case _ =>
      }
    } else {
      FreeVisitNamed(items[1..], u, ctx, used, n);
    }
  }

  // The bodies that block(name, other) can name refer to each other without a cycle.
  ghost predicate Ranked(u: Unit, rank: seq<Item> -> nat) {
    forall a, b :: a in Targets(u) && b in NamedBodies(a, u) ==> rank(b) < rank(a)
  }

  lemma {:induction false} RankFalls(p: seq<Nested>, u: Unit, rank: seq<Item> -> nat, i: nat, k: nat)
    requires Ranked(u, rank) && Path(p, u) && i < |p| - 1 && p[i] == p[|p| - 1] && i < k < |p|
    ensures rank(p[k].items) < rank(p[i].items)
  {
    ReturnSpendsNothing(p, u, i, |p| - 1);
    if k - 1 > i { RankFalls(p, u, rank, i, k - 1); ReturnSpendsNothing(p, u, i, k - 1); }
    ReturnSpendsNothing(p, u, i, k);
    FreeVisitNamed(p[k - 1].items, u, p[k - 1].ctx, p[k - 1].used, p[k]);
  }

  // Without a cycle of such references, every inlining ends.
  lemma AcyclicEnds(items: seq<Item>, u: Unit, rank: seq<Item> -> nat)
    requires Ranked(u, rank)
    ensures Ends(Nested(items, [], 0), u)
  {
    EndsExactly(items, u);
    if p :| Returns(p, u) && p[0] == Nested(items, [], 0) {
      var i :| 0 <= i < |p| - 1 && p[i] == p[|p| - 1];
      RankFalls(p, u, rank, i, |p| - 1);
    }
  }

  // ----- the interpreter as it runs -----

  datatype Signal = Fine | Raised(e: BlockError) | Exhausted

  class BlockRenderer {
    const u: Unit
    var env: Env
    var out: string
    var curBlock: Option<Ctx>

    constructor (linked: Unit, vars: Env)
      ensures u == linked && State() == St(vars, "", None)
    {
      u, env, out, curBlock := linked, vars, "", None;
    }

    function State(): St
      reads this
    {
      St(env, out, curBlock)
    }

    // The signal of a run, and the state or the partial output it leaves.
    ghost predicate Left(s: Signal, r: RenderR)
      reads this
    {
      match r
      case ROk(st) => s == Fine && State() == st
      case RErr(e, o) => s == Raised(e) && out == o
      case REndless => s == Exhausted
    }

    method ExecItems(items: seq<Item>, fuel: nat) returns (s: Signal)
      modifies this
      ensures Left(s, Render(items, u, old(State()), fuel))
      decreases fuel, 2, items, 0
    {
      s := Fine;
      if items != [] {
        s := ExecItem(items[0], fuel);
        if s.Fine? { s := ExecItems(items[1..], fuel); }
      }
    }

    method ExecItem(i: Item, fuel: nat) returns (s: Signal)
      modifies this
      ensures Left(s, RenderItem(i, u, old(State()), fuel))
      decreases fuel, 2, i, 1
    {
      s := Fine;
      match i {
        case Text(t) => out := out + t;
        case Show(x) => out := out + Lookup1(env, x);
        case Let(x, t) => env := env[x := t];
        case When(x, body) => if x in env { s := ExecItems(body, fuel); }
        case Site(name, own) =>
          if name in u.table { s := RenderBlockAt(u.table[name], 0, fuel); } else { s := ExecItems(own, fuel); }
        case Super =>
          if curBlock.None? { return Raised(NoParentBlock); }
          s := CaptureBlock(curBlock.value.chain, curBlock.value.depth + 1, fuel);
        case Call(name) =>
          if name !in u.table { return Raised(NoBlock(name)); }
          s := CaptureBlock(u.table[name], 0, fuel);
        case CallOf(name, other) =>
          if other !in u.own { return Raised(NoTemplate(other)); }
          if name !in u.own[other] { return Raised(NoBlockIn(other, name)); }
          if fuel == 0 { return Exhausted; }
          var saved := out;
          out := "";
          s := ExecItems(u.Body(u.own[other][name]), fuel - 1);
          out := if s.Fine? then saved + out else saved;
      }
    }

    // The current block is switched for the duration of the body and put back, error or not.
    method RenderBlockAt(chain: seq<Def>, depth: nat, fuel: nat) returns (s: Signal)
      modifies this
      ensures Left(s, RenderAt(chain, depth, u, old(State()), fuel))
      decreases fuel, 0
    {
      if depth >= |chain| { return Fine; }
      if fuel == 0 { return Exhausted; }
      var saved := curBlock;
      curBlock := Some(Ctx(chain, depth));
      s := ExecItems(u.Body(chain[depth].node), fuel - 1);
      curBlock := saved;
    }

    // A block rendered into a sink of its own and printed.
    method CaptureBlock(chain: seq<Def>, depth: nat, fuel: nat) returns (s: Signal)
      modifies this
      ensures Left(s, Captured(RenderAt(chain, depth, u, old(State()).(out := ""), fuel), old(out)))
      decreases fuel, 1
    {
      var saved := out;
      out := "";
      s := RenderBlockAt(chain, depth, fuel);
      out := if s.Fine? then saved + out else saved;
    }
  }
}
