/** The frame prescan: the names a statement list binds in its own frame, in first-appearance order. */
module Scan {
  import opened Values
  import opened Syntax

  function ExprBinds(e: Expr): seq<string>
    decreases e, 1
  {
    match e
    case Lit(_) => []
    case Name(_) => []
    case Context => []
    case ListLit(items) => ItemsBinds(items)
    case MapLit(fields) => FieldsBinds(fields)
    case Attr(_, recv, _, _) => ExprBinds(recv)
    case Not(a) => ExprBinds(a)
    case Bin(_, l, r) => ExprBinds(l) + ExprBinds(r)
    case Logic(_, l, r) => ExprBinds(l) + ExprBinds(r)
    case Ternary(c, a, b) => ExprBinds(c) + ExprBinds(a) + ExprBinds(b)
    case Coalesce(l, r) => ExprBinds(l) + ExprBinds(r)
    case Elvis(l, r) => ExprBinds(l) + ExprBinds(r)
    case Assign(x, a) => [x] + ExprBinds(a)
  }

  function ItemsBinds(items: seq<Expr>): seq<string>
    decreases items, 0
  {
    if items == [] then [] else ExprBinds(items[0]) + ItemsBinds(items[1..])
  }

  function FieldsBinds(fields: seq<Entry>): seq<string>
    decreases fields, 0
  {
    if fields == [] then [] else ExprBinds(fields[0].v) + FieldsBinds(fields[1..])
  }

  function Without(names: seq<string>, bound: set<string>): seq<string> {
    if names == [] then []
    else if names[0] in bound then Without(names[1..], bound)
    else [names[0]] + Without(names[1..], bound)
  }

  function StmtBinds(s: Stmt): seq<string>
    decreases s, 1
  {
    match s
    case Text(_) => []
    case Print(e) => ExprBinds(e)
    case Do(e) => ExprBinds(e)
    case Set(x, e) => [x] + ExprBinds(e)
    case Capture(x, body) => [x] + ListBinds(body)
    case Apply(body) => ListBinds(body)
    case If(clauses) => ClausesBinds(clauses)
    case With(m, _, _) => ExprBinds(m)
    case For(_, t1, t2, iter, _, body, els) =>
      ExprBinds(iter) + Without(AddNames([], ListBinds(body)), LoopControls(t1, t2)) + ListBinds(els)
  }

  function ListBinds(ss: seq<Stmt>): seq<string>
    decreases ss, 0
  {
    if ss == [] then [] else StmtBinds(ss[0]) + ListBinds(ss[1..])
  }

  function ClausesBinds(cs: seq<Clause>): seq<string>
    decreases cs, 0
  {
    if cs == [] then []
    else
      (match cs[0]
       case When(c, body) => ExprBinds(c) + ListBinds(body)
       case Otherwise(body) => ListBinds(body)) + ClausesBinds(cs[1..])
  }

  // The prescan of a statement list.
  function BindNames(ss: seq<Stmt>): seq<string> {
    AddNames([], ListBinds(ss))
  }
}
