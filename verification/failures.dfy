/** The errors a template can raise: an interpreted template never fails inside the engine. */
module Failures {
  import opened Values
  import opened Syntax
  import opened Scopes
  import opened Interp

  lemma {:induction false} EvalFails(e: Expr, sc: Scope, absent: bool, lenient: bool)
    requires sc.Scope?
    ensures Eval(e, sc, absent, lenient) != EFail(CompilerPanic)
    decreases e, 1
  {
    match e {
      case ListLit(items) => ItemsFail(items, sc, 0, [], lenient);
      case MapLit(fields) => FieldsFail(fields, sc, [], lenient);
      case Attr(_, r, _, _) => EvalFails(r, sc, absent, lenient);
      case Not(a) => EvalFails(a, sc, false, lenient);
      case Assign(_, a) => EvalFails(a, sc, false, lenient);
      case Bin(_, l, r) => OperandsFail(e, l, r, sc, false, lenient);
      case Logic(_, l, r) => OperandsFail(e, l, r, sc, false, lenient);
      case Coalesce(l, r) => OperandsFail(e, l, r, sc, true, lenient);
      case Elvis(l, r) => OperandsFail(e, l, r, sc, true, lenient);
      case Ternary(c, a, b) =>
        OperandsFail(e, c, a, sc, false, lenient);
        OperandsFail(e, c, b, sc, false, lenient);
      case _ =>
    }
  }

  // An operand, and a second one in the scope the first leaves.
  lemma {:induction false} OperandsFail(e: Expr, l: Expr, r: Expr, sc: Scope, absent: bool, lenient: bool)
    requires sc.Scope? && l < e && r < e
    ensures Eval(l, sc, absent, lenient) != EFail(CompilerPanic)
    ensures var a := Eval(l, sc, absent, lenient); a.EOk? ==> Eval(r, a.sc, false, lenient) != EFail(CompilerPanic)
    decreases e, 0
  {
    EvalFails(l, sc, absent, lenient);
    var a := Eval(l, sc, absent, lenient);
    if a.EOk? { EvalFails(r, a.sc, false, lenient); }
  }

  lemma {:induction false} ItemsFail(items: seq<Expr>, sc: Scope, n: nat, acc: seq<(string, Value)>, lenient: bool)
    requires sc.Scope?
    ensures EvalItems(items, sc, n, acc, lenient) != EFail(CompilerPanic)
    decreases items, 0
  {
    if items != [] {
      EvalFails(items[0], sc, false, lenient);
      var a := Eval(items[0], sc, false, lenient);
      if a.EOk? { ItemsFail(items[1..], a.sc, n + 1, Put(acc, IntText(n), a.v), lenient); }
    }
  }

  lemma {:induction false} FieldsFail(fields: seq<Entry>, sc: Scope, acc: seq<(string, Value)>, lenient: bool)
    requires sc.Scope?
    ensures EvalFields(fields, sc, acc, lenient) != EFail(CompilerPanic)
    decreases fields, 0
  {
    if fields != [] {
      EvalFails(fields[0].v, sc, false, lenient);
      var a := Eval(fields[0].v, sc, false, lenient);
      if a.EOk? { FieldsFail(fields[1..], a.sc, Put(acc, fields[0].key, a.v), lenient); }
    }
  }

  lemma {:induction false} FilterFails(cond: Expr, t1: string, t2: Option<string>, ps: seq<(string, Value)>, sc: Scope,
                                       kept: seq<(string, Value)>, lenient: bool)
    requires sc.Scope?
    ensures FilterPairs(cond, t1, t2, ps, sc, kept, lenient) != FFail(CompilerPanic)
    decreases |ps|
  {
    if ps != [] {
      var sc1 := BindTargets(sc, t1, t2, ps[0]);
      EvalFails(cond, sc1, false, lenient);
      var a := Eval(cond, sc1, false, lenient);
      if a.EOk? { FilterFails(cond, t1, t2, ps[1..], a.sc, if Truthy(a.v) then kept + [ps[0]] else kept, lenient); }
    }
  }

  predicate Clean(r: ExecR) { r.XFail? ==> r.error != CompilerPanic }

  lemma {:induction false} StmtFails(s: Stmt, sc: Scope, out: string, lenient: bool)
    requires sc.Scope?
    ensures Clean(Exec(s, sc, out, lenient))
    decreases s, 2
  {
    match s {
      case Text(_) =>
      case Print(e) => EvalFails(e, sc, false, lenient);
      case Do(e) => EvalFails(e, sc, false, lenient);
      case Set(_, e) => EvalFails(e, sc, false, lenient);
      case Capture(_, body) => ListFails(body, sc, "", lenient);
      case Apply(body) => ListFails(body, sc, "", lenient);
      case If(clauses) => ClausesFail(clauses, sc, out, lenient);
      case With(m, only, body) =>
        EvalFails(m, sc, false, lenient);
        var a := Eval(m, sc, false, lenient);
        if a.EOk? { ListFails(body, SetAll(Child(if only then NoScope else a.sc), WithEntries(a.v)), out, lenient); }
      case For(_, _, _, iter, _, _, _) =>
        EvalFails(iter, sc, false, lenient);
        var a := Eval(iter, sc, false, lenient);
        if a.EOk? { ForFails(s, a.v, a.sc, out, lenient); }
    }
  }

  lemma {:induction false} ForFails(s: Stmt, v: Value, sc: Scope, out: string, lenient: bool)
    requires s.For? && sc.Scope?
    ensures Clean(ExecFor(s, v, sc, out, lenient))
    decreases s, 1
  {
    if Traverse(v, lenient).Ok? {
      var ps := Traverse(v, lenient).value;
      if s.filter.Some? { FilterFails(s.filter.value, s.t1, s.t2, ps, Child(sc), [], lenient); }
      var fr := if s.filter.Some? then FilterPairs(s.filter.value, s.t1, s.t2, ps, Child(sc), [], lenient) else FOk(ps);
      if fr.FOk? {
        if fr.kept == [] { ListFails(s.els, sc, out, lenient); }
        else { IterFails(s.body, s.t1, s.t2, fr.kept, 0, Get(sc, "loop").GetOr(Null), Child(sc), out, lenient); }
      }
    }
  }

  lemma {:induction false} ListFails(ss: seq<Stmt>, sc: Scope, out: string, lenient: bool)
    requires sc.Scope?
    ensures Clean(ExecList(ss, sc, out, lenient))
    decreases ss, 0
  {
    if ss != [] {
      StmtFails(ss[0], sc, out, lenient);
      var a := Exec(ss[0], sc, out, lenient);
      if a.XOk? { ListFails(ss[1..], a.sc, a.out, lenient); }
    }
  }

  lemma {:induction false} ClausesFail(cs: seq<Clause>, sc: Scope, out: string, lenient: bool)
    requires sc.Scope?
    ensures Clean(ExecIf(cs, sc, out, lenient))
    decreases cs, 0
  {
    if cs != [] {
      match cs[0] {
        case Otherwise(body) => ListFails(body, sc, out, lenient);
        case When(c, body) =>
          EvalFails(c, sc, false, lenient);
          var a := Eval(c, sc, false, lenient);
          if a.EOk? {
            ListFails(body, a.sc, out, lenient);
            ClausesFail(cs[1..], a.sc, out, lenient);
          }
      }
    }
  }

  lemma {:induction false} IterFails(body: seq<Stmt>, t1: string, t2: Option<string>, ps: seq<(string, Value)>, i: nat,
                                     parent: Value, lc: Scope, out: string, lenient: bool)
    requires lc.Scope? && i <= |ps|
    ensures Clean(ExecIter(body, t1, t2, ps, i, parent, lc, out, lenient))
    decreases body, 1, |ps| - i
  {
    if i < |ps| {
      var sc1 := SetName(BindTargets(lc, t1, t2, ps[i]), "loop", Loop(i, ps, parent));
      ListFails(body, sc1, out, lenient);
      var a := ExecList(body, sc1, out, lenient);
      if a.XOk? { IterFails(body, t1, t2, ps, i + 1, parent, a.sc, a.out, lenient); }
    }
  }
}
