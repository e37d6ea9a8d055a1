/** The identity of nodes, read off the program: what a walk records under an identity is what the node
    of that identity holds. */
module Nodes {
  import opened Values
  import opened Syntax
  import opened Safety
  import opened LoopOpt
  import opened LoopSafe

  // An access node: its identity, its field, and whether it stands in a body the walk does not enter.
  type Access = (nat, string, bool)

  // A for node, and whether it stands in such a body.
  type Site = (nat, bool)

  function AccessE(e: Expr, hidden: bool): set<Access>
    decreases e, 1
  {
    match e
    case Lit(_) => {}
    case Name(_) => {}
    case Context => {}
    case ListLit(items) => AccessItems(items, hidden)
    case MapLit(fields) => AccessFields(fields, hidden)
    case Attr(node, r, field, _) => {(node, field, hidden)} + AccessE(r, hidden)
    case Not(a) => AccessE(a, hidden)
    case Bin(_, l, r) => AccessE(l, hidden) + AccessE(r, hidden)
    case Logic(_, l, r) => AccessE(l, hidden) + AccessE(r, hidden)
    case Ternary(c, a, b) => AccessE(c, hidden) + AccessE(a, hidden) + AccessE(b, hidden)
    case Coalesce(l, r) => AccessE(l, hidden) + AccessE(r, hidden)
    case Elvis(l, r) => AccessE(l, hidden) + AccessE(r, hidden)
    case Assign(_, a) => AccessE(a, hidden)
  }

  function AccessItems(items: seq<Expr>, hidden: bool): set<Access>
    decreases items, 0
  {
    if items == [] then {} else AccessE(items[0], hidden) + AccessItems(items[1..], hidden)
  }

  function AccessFields(fields: seq<Entry>, hidden: bool): set<Access>
    decreases fields, 0
  {
    if fields == [] then {} else AccessE(fields[0].v, hidden) + AccessFields(fields[1..], hidden)
  }

  function AccessS(s: Stmt, hidden: bool): set<Access>
    decreases s, 1
  {
    match s
    case Text(_) => {}
    case Print(e) => AccessE(e, hidden)
    case Do(e) => AccessE(e, hidden)
    case Set(_, e) => AccessE(e, hidden)
    case Capture(_, body) => AccessL(body, hidden)
    case Apply(body) => AccessL(body, true)
    case If(clauses) => AccessC(clauses, hidden)
    case With(m, _, body) => AccessE(m, hidden) + AccessL(body, hidden)
    case For(_, _, _, iter, filter, body, els) =>
      AccessE(iter, hidden) + (if filter.Some? then AccessE(filter.value, hidden) else {})
      + (AccessL(body, hidden) + AccessL(els, hidden))
  }

  function AccessL(ss: seq<Stmt>, hidden: bool): set<Access>
    decreases ss, 0
  {
    if ss == [] then {} else AccessS(ss[0], hidden) + AccessL(ss[1..], hidden)
  }

  function AccessC(cl: seq<Clause>, hidden: bool): set<Access>
    decreases cl, 0
  {
    if cl == [] then {}
    else (if cl[0].When? then AccessE(cl[0].cond, hidden) else {}) + AccessL(cl[0].body, hidden)
         + AccessC(cl[1..], hidden)
  }

  function LoopsS(s: Stmt, hidden: bool): set<Site>
    decreases s, 1
  {
    match s
    case Capture(_, body) => LoopsL(body, hidden)
    case Apply(body) => LoopsL(body, true)
    case If(clauses) => LoopsC(clauses, hidden)
    case With(_, _, body) => LoopsL(body, hidden)
    case For(id, _, _, _, _, body, els) => {(id, hidden)} + (LoopsL(body, hidden) + LoopsL(els, hidden))
    case _ => {}
  }

  function LoopsL(ss: seq<Stmt>, hidden: bool): set<Site>
    decreases ss, 0
  {
    if ss == [] then {} else LoopsS(ss[0], hidden) + LoopsL(ss[1..], hidden)
  }

  function LoopsC(cl: seq<Clause>, hidden: bool): set<Site>
    decreases cl, 0
  {
    if cl == [] then {} else LoopsL(cl[0].body, hidden) + LoopsC(cl[1..], hidden)
  }

  // Equal identities denote one node: one field, and one place as to the bodies of apply.
  predicate OneField(acc: set<Access>) { forall a <- acc, b <- acc :: a.0 == b.0 ==> a == b }

  predicate OneSite(sites: set<Site>) { forall a <- sites, b <- sites :: a.0 == b.0 ==> a == b }

  predicate Identified(ss: seq<Stmt>) { OneField(AccessL(ss, false)) && OneSite(LoopsL(ss, false)) }

  // ----- a walk records what stands in the program -----

  ghost predicate Records(a: Walk, b: Walk, acc: set<Access>, sites: set<Site>) {
    && (forall c :: c in b.chains ==> c in a.chains || (c.node, c.field, false) in acc)
    && (forall n :: n in b.visited ==> n in a.visited || (n, false) in sites)
  }

  lemma {:induction false} WalkRecordsE(e: Expr, st: AStack, w: Walk)
    ensures Records(w, WalkE(e, st, w), AccessE(e, false), {})
    decreases e, 1
  {
    match e {
      case ListLit(items) => WalkRecordsItems(items, st, w);
      case MapLit(fields) => WalkRecordsFields(fields, st, w);
      case Attr(node, r, _, _) => if TryChain(e, st).None? { WalkRecordsE(r, st, w.(noInline := w.noInline + {node})); }
      case Not(a) => WalkRecordsE(a, st, w);
      case Bin(_, l, r) => WalkRecordsTwo(e, l, r, st, w);
      case Logic(_, l, r) => WalkRecordsTwo(e, l, r, st, w);
      case Ternary(c, a, b) =>
        WalkRecordsTwo(e, c, a, st, w);
        WalkRecordsE(b, st, WalkE(a, st, WalkE(c, st, w)));
      case Coalesce(l, r) => WalkRecordsTwo(e, l, r, st, w);
      case Elvis(l, r) => WalkRecordsTwo(e, l, r, st, w);
      case Assign(x, a) => WalkRecordsE(a, st, if x == "loop" then EscapeInnermost(st, w) else w);
      case _ =>
    }
  }

  lemma {:induction false} WalkRecordsTwo(e: Expr, l: Expr, r: Expr, st: AStack, w: Walk)
    requires l < e && r < e
    ensures Records(w, WalkE(r, st, WalkE(l, st, w)), AccessE(l, false) + AccessE(r, false), {})
    decreases e, 0
  {
    WalkRecordsE(l, st, w);
    WalkRecordsE(r, st, WalkE(l, st, w));
  }

  lemma {:induction false} WalkRecordsItems(items: seq<Expr>, st: AStack, w: Walk)
    ensures Records(w, WalkItems(items, st, w), AccessItems(items, false), {})
    decreases items, 0
  {
    if items != [] {
      WalkRecordsE(items[0], st, w);
      WalkRecordsItems(items[1..], st, WalkE(items[0], st, w));
    }
  }

  lemma {:induction false} WalkRecordsFields(fields: seq<Entry>, st: AStack, w: Walk)
    ensures Records(w, WalkFields(fields, st, w), AccessFields(fields, false), {})
    decreases fields, 0
  {
    if fields != [] {
      WalkRecordsE(fields[0].v, st, w);
      WalkRecordsFields(fields[1..], st, WalkE(fields[0].v, st, w));
    }
  }

  lemma {:induction false} WalkRecordsS(s: Stmt, st: AStack, w: Walk)
    ensures Records(w, WalkS(s, st, w), AccessS(s, false), LoopsS(s, false))
    decreases s, 1
  {
    match s {
      case Print(e) => WalkRecordsE(e, st, w);
      case Do(e) => WalkRecordsE(e, st, w);
      case Set(x, e) => WalkRecordsE(e, st, if x == "loop" then EscapeInnermost(st, w) else w);
      case Capture(x, body) => WalkRecordsL(body, st, if x == "loop" then EscapeInnermost(st, w) else w);
      case If(clauses) => WalkRecordsC(clauses, st, w);
      case With(m, only, body) =>
        WalkRecordsE(m, st, w);
        WalkRecordsL(body, APush(if only then AOnly else AWith, st), WalkE(m, st, w));
      case For(_, _, _, _, _, _, _) => WalkRecordsFor(s, st, w);
      case _ =>
    }
  }

  lemma RecordsThen(a: Walk, b: Walk, c: Walk, acc: set<Access>, sites: set<Site>, acc2: set<Access>,
                    sites2: set<Site>)
    requires Records(a, b, acc, sites) && Records(b, c, acc2, sites2)
    ensures Records(a, c, acc + acc2, sites + sites2)
  {
  }

  lemma {:induction false} WalkRecordsFor(s: Stmt, st: AStack, w: Walk)
    requires s.For?
    ensures Records(w, WalkS(s, st, w), AccessS(s, false), LoopsS(s, false))
    decreases s, 0
  {
    var w0 := WalkE(s.iter, st, w);
    var w1 := Enter(s, st, w0);
    var w2 := WalkPairs(s, st, w1);
    var w3 := WalkL(s.body, APush(ALoop(s.id), st), w2);
    WalkRecordsE(s.iter, st, w);
    EnterRecords(s, st, w0);
    var acc := if s.filter.Some? then AccessE(s.filter.value, false) else {};
    if s.filter.Some? {
      WalkRecordsE(s.filter.value, APush(AFilter(FilterBindsLoop(s.t1, s.t2, s.filter.value)), st), w1);
    }
    WalkRecordsL(s.body, APush(ALoop(s.id), st), w2);
    WalkRecordsL(s.els, st, w3);
    RecordsThen(w2, w3, WalkS(s, st, w), AccessL(s.body, false), LoopsL(s.body, false), AccessL(s.els, false),
                LoopsL(s.els, false));
    RecordsThen(w, w0, w1, AccessE(s.iter, false), {}, {}, {(s.id, false)});
    RecordsThen(w, w1, w2, AccessE(s.iter, false) + {}, {} + {(s.id, false)}, acc, {});
  }

  lemma EnterRecords(s: Stmt, st: AStack, w: Walk)
    requires s.For?
    ensures Records(w, Enter(s, st, w), {}, {(s.id, false)})
  {
  }

  lemma {:induction false} WalkRecordsL(ss: seq<Stmt>, st: AStack, w: Walk)
    ensures Records(w, WalkL(ss, st, w), AccessL(ss, false), LoopsL(ss, false))
    decreases ss, 0
  {
    if ss != [] {
      WalkRecordsS(ss[0], st, w);
      WalkRecordsL(ss[1..], st, WalkS(ss[0], st, w));
    }
  }

  lemma {:induction false} WalkRecordsC(cl: seq<Clause>, st: AStack, w: Walk)
    ensures Records(w, WalkC(cl, st, w), AccessC(cl, false), LoopsC(cl, false))
    decreases cl, 0
  {
    if cl != [] {
      match cl[0] {
        case When(c, body) =>
          WalkRecordsE(c, st, w);
          WalkRecordsL(body, st, WalkE(c, st, w));
          WalkRecordsC(cl[1..], st, WalkL(body, st, WalkE(c, st, w)));
        case Otherwise(body) =>
          WalkRecordsL(body, st, w);
          WalkRecordsC(cl[1..], st, WalkL(body, st, w));
      }
    }
  }

  // ----- so records name nodes -----

  ghost predicate Naming(w: Walk, acc: set<Access>, sites: set<Site>) {
    && OneField(acc) && OneSite(sites)
    && (forall c :: c in w.chains ==> (c.node, c.field, false) in acc)
    && (forall n :: n in w.visited ==> (n, false) in sites)
  }

  lemma {:induction false} NamedSitesE(e: Expr, w: Walk, hidden: bool, acc: set<Access>, sites: set<Site>)
    requires Naming(w, acc, sites) && AccessE(e, hidden) <= acc
    ensures SitesE(e, w, hidden)
    decreases e, 1
  {
    match e {
      case ListLit(items) => NamedSitesItems(items, w, hidden, acc, sites);
      case MapLit(fields) => NamedSitesFields(fields, w, hidden, acc, sites);
      case Attr(node, r, field, _) =>
        NamedSitesE(r, w, hidden, acc, sites);
        assert (node, field, hidden) in acc;
      case Not(a) => NamedSitesE(a, w, hidden, acc, sites);
      case Bin(_, l, r) => NamedSitesE(l, w, hidden, acc, sites); NamedSitesE(r, w, hidden, acc, sites);
      case Logic(_, l, r) => NamedSitesE(l, w, hidden, acc, sites); NamedSitesE(r, w, hidden, acc, sites);
      case Ternary(c, a, b) =>
        NamedSitesE(c, w, hidden, acc, sites);
        NamedSitesE(a, w, hidden, acc, sites);
        NamedSitesE(b, w, hidden, acc, sites);
      case Coalesce(l, r) => NamedSitesE(l, w, hidden, acc, sites); NamedSitesE(r, w, hidden, acc, sites);
      case Elvis(l, r) => NamedSitesE(l, w, hidden, acc, sites); NamedSitesE(r, w, hidden, acc, sites);
      case Assign(_, a) => NamedSitesE(a, w, hidden, acc, sites);
      case _ =>
    }
  }

  lemma {:induction false} NamedSitesItems(items: seq<Expr>, w: Walk, hidden: bool, acc: set<Access>, sites: set<Site>)
    requires Naming(w, acc, sites) && AccessItems(items, hidden) <= acc
    ensures forall i | 0 <= i < |items| :: SitesE(items[i], w, hidden)
    decreases items, 0
  {
    if items != [] {
      NamedSitesE(items[0], w, hidden, acc, sites);
      NamedSitesItems(items[1..], w, hidden, acc, sites);
      forall i | 0 <= i < |items| ensures SitesE(items[i], w, hidden) {
        if i > 0 { assert items[i] == items[1..][i - 1]; }
      }
    }
  }

  lemma {:induction false} NamedSitesFields(fields: seq<Entry>, w: Walk, hidden: bool, acc: set<Access>,
                                            sites: set<Site>)
    requires Naming(w, acc, sites) && AccessFields(fields, hidden) <= acc
    ensures forall i | 0 <= i < |fields| :: SitesE(fields[i].v, w, hidden)
    decreases fields, 0
  {
    if fields != [] {
      NamedSitesE(fields[0].v, w, hidden, acc, sites);
      NamedSitesFields(fields[1..], w, hidden, acc, sites);
      forall i | 0 <= i < |fields| ensures SitesE(fields[i].v, w, hidden) {
        if i > 0 { assert fields[i] == fields[1..][i - 1]; }
      }
    }
  }

  lemma {:induction false} NamedSitesS(s: Stmt, w: Walk, hidden: bool, acc: set<Access>, sites: set<Site>)
    requires Naming(w, acc, sites) && AccessS(s, hidden) <= acc && LoopsS(s, hidden) <= sites
    ensures SitesS(s, w, hidden)
    decreases s, 1
  {
    match s {
      case Print(e) => NamedSitesE(e, w, hidden, acc, sites);
      case Do(e) => NamedSitesE(e, w, hidden, acc, sites);
      case Set(_, e) => NamedSitesE(e, w, hidden, acc, sites);
      case Capture(_, body) => NamedSitesL(body, w, hidden, acc, sites);
      case Apply(body) => NamedSitesL(body, w, true, acc, sites);
      case If(clauses) => NamedSitesC(clauses, w, hidden, acc, sites);
      case With(m, _, body) => NamedSitesE(m, w, hidden, acc, sites); NamedSitesL(body, w, hidden, acc, sites);
      case For(id, _, _, iter, filter, body, els) =>
        assert (id, hidden) in sites;
        NamedSitesE(iter, w, hidden, acc, sites);
        if filter.Some? { NamedSitesE(filter.value, w, hidden, acc, sites); }
        NamedSitesL(body, w, hidden, acc, sites);
        NamedSitesL(els, w, hidden, acc, sites);
      case _ =>
    }
  }

  lemma {:induction false} NamedSitesL(ss: seq<Stmt>, w: Walk, hidden: bool, acc: set<Access>, sites: set<Site>)
    requires Naming(w, acc, sites) && AccessL(ss, hidden) <= acc && LoopsL(ss, hidden) <= sites
    ensures SitesL(ss, w, hidden)
    decreases ss, 0
  {
    if ss != [] {
      NamedSitesS(ss[0], w, hidden, acc, sites);
      NamedSitesL(ss[1..], w, hidden, acc, sites);
    }
  }

  lemma {:induction false} NamedSitesC(cl: seq<Clause>, w: Walk, hidden: bool, acc: set<Access>, sites: set<Site>)
    requires Naming(w, acc, sites) && AccessC(cl, hidden) <= acc && LoopsC(cl, hidden) <= sites
    ensures SitesC(cl, w, hidden)
    decreases cl, 0
  {
    if cl != [] {
      if cl[0].When? { NamedSitesE(cl[0].cond, w, hidden, acc, sites); }
      NamedSitesL(cl[0].body, w, hidden, acc, sites);
      NamedSitesC(cl[1..], w, hidden, acc, sites);
    }
  }

  // In a module whose identities denote its nodes, every record of the walk names one node.
  lemma IdentifiedSites(ss: seq<Stmt>)
    requires Identified(ss)
    ensures SitesL(ss, WalkModule(ss), false)
  {
    WalkRecordsL(ss, ARoot, Walk([], {}, map[], [], {}));
    NamedSitesL(ss, WalkModule(ss), false, AccessL(ss, false), LoopsL(ss, false));
  }
}
