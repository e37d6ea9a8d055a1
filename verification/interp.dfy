/** The tree-walking interpreter over the scope chain: the reference semantics. */
module Interp {
  import opened Values
  import opened Syntax
  import opened Scopes

  datatype EvalR = EOk(v: Value, sc: Scope) | EFail(err: Error)

  datatype ExecR = XOk(sc: Scope, out: string) | XFail(error: Error, partial: string)

  datatype FilterR = FOk(kept: seq<(string, Value)>) | FFail(ferr: Error)

  // ----- expressions -----

  function EvalName(x: string, sc: Scope, absent: bool, lenient: bool): EvalR {
    match Get(sc, x)
    case Some(v) => EOk(v, sc)
    case None => if absent || lenient then EOk(Null, sc) else EFail(UndefinedName(x, Names(sc)))
  }

  // _context: every visible name in order, with its innermost value.
  function ContextEntries(names: seq<string>, sc: Scope): seq<(string, Value)> {
    if names == [] then []
    else
      var x := names[|names| - 1];
      Put(ContextEntries(names[..|names| - 1], sc), x, Get(sc, x).GetOr(Null))
  }

  function AttrOf(recv: Value, field: string, nullSafe: bool, absent: bool): Result<Value> {
    if recv.Null? && (nullSafe || absent) then Ok(Null) else GetDot(recv, field, absent)
  }

  function Lift(r: Result<Value>, sc: Scope): EvalR {
    match r
    case Ok(v) => EOk(v, sc)
    case Err(e) => EFail(e)
  }

  function Eval(e: Expr, sc: Scope, absent: bool, lenient: bool): (r: EvalR)
    requires sc.Scope?
    ensures r.EOk? ==> r.sc.Scope? && r.sc.parent == sc.parent
    decreases e, 1
  {
    match e
    case Lit(v) => EOk(v, sc)
    case Name(x) => EvalName(x, sc, absent, lenient)
    case Context => EOk(Arr(ContextEntries(Names(sc), sc)), sc)
    case ListLit(items) => EvalItems(items, sc, 0, [], lenient)
    case MapLit(fields) => EvalFields(fields, sc, [], lenient)
    case Attr(_, recv, field, nullSafe) =>
      (match Eval(recv, sc, absent, lenient)
       case EFail(x) => EFail(x)
       case EOk(v, sc1) => Lift(AttrOf(v, field, nullSafe, absent), sc1))
    case Not(a) =>
      (match Eval(a, sc, false, lenient)
       case EFail(x) => EFail(x)
       case EOk(v, sc1) => EOk(Bool(!Truthy(v)), sc1))
    case Bin(op, l, r) =>
      (match Eval(l, sc, false, lenient)
       case EFail(x) => EFail(x)
       case EOk(v, sc1) =>
         match Eval(r, sc1, false, lenient)
         case EFail(x) => EFail(x)
         case EOk(w, sc2) => Lift(Binary(op, v, w), sc2))
    case Logic(op, l, r) =>
      (match Eval(l, sc, false, lenient)
       case EFail(x) => EFail(x)
       case EOk(v, sc1) =>
         if op == And && !Truthy(v) then EOk(Bool(false), sc1)
         else if op == Or && Truthy(v) then EOk(Bool(true), sc1)
         else
           match Eval(r, sc1, false, lenient)
           case EFail(x) => EFail(x)
           case EOk(w, sc2) => EOk(Bool(if op == Xor then Truthy(v) != Truthy(w) else Truthy(w)), sc2))
    case Ternary(c, a, b) =>
      (match Eval(c, sc, false, lenient)
       case EFail(x) => EFail(x)
       case EOk(v, sc1) => if Truthy(v) then Eval(a, sc1, false, lenient) else Eval(b, sc1, false, lenient))
    case Coalesce(l, r) =>
      (match Eval(l, sc, true, lenient)
       case EFail(x) => EFail(x)
       case EOk(v, sc1) => if v.Null? then Eval(r, sc1, false, lenient) else EOk(v, sc1))
    case Elvis(l, r) =>
      (match Eval(l, sc, true, lenient)
       case EFail(x) => EFail(x)
       case EOk(v, sc1) => if Truthy(v) then EOk(v, sc1) else Eval(r, sc1, false, lenient))
    case Assign(x, a) =>
      (match Eval(a, sc, false, lenient)
       case EFail(er) => EFail(er)
       case EOk(v, sc1) => EOk(v, SetName(sc1, x, v)))
  }

  function EvalItems(items: seq<Expr>, sc: Scope, n: nat, acc: seq<(string, Value)>, lenient: bool): (r: EvalR)
    requires sc.Scope?
    ensures r.EOk? ==> r.sc.Scope? && r.sc.parent == sc.parent
    decreases items, 0
  {
    if items == [] then EOk(Arr(acc), sc)
    else
      match Eval(items[0], sc, false, lenient)
      case EFail(x) => EFail(x)
      case EOk(v, sc1) => EvalItems(items[1..], sc1, n + 1, Put(acc, IntText(n), v), lenient)
  }

  function EvalFields(fields: seq<Entry>, sc: Scope, acc: seq<(string, Value)>, lenient: bool): (r: EvalR)
    requires sc.Scope?
    ensures r.EOk? ==> r.sc.Scope? && r.sc.parent == sc.parent
    decreases fields, 0
  {
    if fields == [] then EOk(Arr(acc), sc)
    else
      match Eval(fields[0].v, sc, false, lenient)
      case EFail(x) => EFail(x)
      case EOk(v, sc1) => EvalFields(fields[1..], sc1, Put(acc, fields[0].key, v), lenient)
  }

  // ----- statements -----

  function BindTargets(sc: Scope, t1: string, t2: Option<string>, p: (string, Value)): (r: Scope)
    requires sc.Scope?
    ensures r.Scope? && r.parent == sc.parent
  {
    if t2.Some? then SetName(SetName(sc, t1, KeyValue(p.0)), t2.value, p.1)
    else SetName(sc, t1, p.1)
  }

  // The fused filter: the condition sees the targets in a scope of its own that persists
  // across the candidates.
  function FilterPairs(cond: Expr, t1: string, t2: Option<string>, ps: seq<(string, Value)>,
                       sc: Scope, kept: seq<(string, Value)>, lenient: bool): FilterR
    requires sc.Scope?
    decreases |ps|
  {
    if ps == [] then FOk(kept)
    else
      match Eval(cond, BindTargets(sc, t1, t2, ps[0]), false, lenient)
      case EFail(x) => FFail(x)
      case EOk(v, sc1) =>
        FilterPairs(cond, t1, t2, ps[1..], sc1, if Truthy(v) then kept + [ps[0]] else kept, lenient)
  }

  // Copies back every pre-existing name but the loop's own controls: entries is the loop
  // frame, pre the scope the loop was entered from.
  function CopyBack(names: seq<string>, bound: set<string>, entries: seq<(string, Value)>, pre: Scope): (r: Scope)
    requires pre.Scope?
    ensures r.Scope? && r.parent == pre.parent
  {
    if names == [] then pre
    else
      var done := CopyBack(names[..|names| - 1], bound, entries, pre);
      var x := names[|names| - 1];
      if x in bound then done
      else
        match Get(Scope(entries, done), x)
        case Some(v) => SetName(done, x, v)
        case None => done
  }

  function Exec(s: Stmt, sc: Scope, out: string, lenient: bool): (r: ExecR)
    requires sc.Scope?
    ensures r.XOk? ==> r.sc.Scope? && r.sc.parent == sc.parent
    decreases s, 1
  {
    match s
    case Text(t) => XOk(sc, out + t)
    case Print(e) =>
      (match Eval(e, sc, false, lenient)
       case EFail(x) => XFail(x, out)
       case EOk(v, sc1) =>
         match ToText(v)
         case Ok(t) => XOk(sc1, out + t)
         case Err(x) => XFail(x, out))
    case Do(e) =>
      (match Eval(e, sc, false, lenient)
       case EFail(x) => XFail(x, out)
       case EOk(_, sc1) => XOk(sc1, out))
    case Set(x, e) =>
      (match Eval(e, sc, false, lenient)
       case EFail(er) => XFail(er, out)
       case EOk(v, sc1) => XOk(SetName(sc1, x, v), out))
    case Capture(x, body) =>
      (match ExecList(body, sc, "", lenient)
       case XFail(er, _) => XFail(er, out)
       case XOk(sc1, text) => XOk(SetName(sc1, x, Str(text)), out))
    case Apply(body) =>
      (match ExecList(body, sc, "", lenient)
       case XFail(er, _) => XFail(er, out)
       case XOk(sc1, text) => XOk(sc1, out + text))
    case If(clauses) => ExecIf(clauses, sc, out, lenient)
    case With(m, only, body) =>
      (match Eval(m, sc, false, lenient)
       case EFail(x) => XFail(x, out)
       case EOk(v, sc1) =>
         match ExecList(body, SetAll(Child(if only then NoScope else sc1), WithEntries(v)), out, lenient)
         case XFail(x, o) => XFail(x, o)
         case XOk(_, o) => XOk(sc1, o))
    case For(_, _, _, iter, _, _, _) =>
      (match Eval(iter, sc, false, lenient)
       case EFail(x) => XFail(x, out)
       case EOk(v, sc1) => ExecFor(s, v, sc1, out, lenient))
  }

  // A for over the value of its iterand: traversability, then the fused filter.
  function ExecFor(s: Stmt, v: Value, sc: Scope, out: string, lenient: bool): (r: ExecR)
    requires s.For? && sc.Scope?
    ensures r.XOk? ==> r.sc.Scope? && r.sc.parent == sc.parent
    decreases s, 0, 2
  {
    match Traverse(v, lenient)
    case Err(x) => XFail(x, out)
    case Ok(ps) =>
      match (if s.filter.Some? then FilterPairs(s.filter.value, s.t1, s.t2, ps, Child(sc), [], lenient) else FOk(ps))
      case FFail(x) => XFail(x, out)
      case FOk(kept) => ExecArms(s, kept, sc, out, lenient)
  }

  // The empty arm runs in the scope itself, the body in a child whose rebinds of pre-existing
  // names are copied back.
  function ExecArms(s: Stmt, ps: seq<(string, Value)>, sc: Scope, out: string, lenient: bool): (r: ExecR)
    requires s.For? && sc.Scope?
    ensures r.XOk? ==> r.sc.Scope? && r.sc.parent == sc.parent
    decreases s, 0, 1
  {
    if ps == [] then ExecList(s.els, sc, out, lenient)
    else
      match ExecIter(s.body, s.t1, s.t2, ps, 0, Get(sc, "loop").GetOr(Null), Child(sc), out, lenient)
      case XFail(x, o) => XFail(x, o)
      case XOk(lc, o) => XOk(CopyBack(Names(sc), LoopControls(s.t1, s.t2), lc.entries, sc), o)
  }

  function ExecList(ss: seq<Stmt>, sc: Scope, out: string, lenient: bool): (r: ExecR)
    requires sc.Scope?
    ensures r.XOk? ==> r.sc.Scope? && r.sc.parent == sc.parent
    decreases ss, 0
  {
    if ss == [] then XOk(sc, out)
    else
      match Exec(ss[0], sc, out, lenient)
      case XFail(x, o) => XFail(x, o)
      case XOk(sc1, o) => ExecList(ss[1..], sc1, o, lenient)
  }

  function ExecIf(cs: seq<Clause>, sc: Scope, out: string, lenient: bool): (r: ExecR)
    requires sc.Scope?
    ensures r.XOk? ==> r.sc.Scope? && r.sc.parent == sc.parent
    decreases cs, 0
  {
    if cs == [] then XOk(sc, out)
    else
      match cs[0]
      case Otherwise(body) => ExecList(body, sc, out, lenient)
      case When(c, body) =>
        match Eval(c, sc, false, lenient)
        case EFail(x) => XFail(x, out)
        case EOk(v, sc1) =>
          if Truthy(v) then ExecList(body, sc1, out, lenient) else ExecIf(cs[1..], sc1, out, lenient)
  }

  // Iterations i.. of a loop body in the persistent loop frame lc.
  function ExecIter(body: seq<Stmt>, t1: string, t2: Option<string>, ps: seq<(string, Value)>, i: nat,
                    parent: Value, lc: Scope, out: string, lenient: bool): (r: ExecR)
    requires lc.Scope? && i <= |ps|
    ensures r.XOk? ==> r.sc.Scope? && r.sc.parent == lc.parent
    decreases body, 1, |ps| - i
  {
    if i == |ps| then XOk(lc, out)
    else
      match ExecList(body, SetName(BindTargets(lc, t1, t2, ps[i]), "loop", Loop(i, ps, parent)), out, lenient)
      case XFail(x, o) => XFail(x, o)
      case XOk(lc1, o) => ExecIter(body, t1, t2, ps, i + 1, parent, lc1, o, lenient)
  }
}
