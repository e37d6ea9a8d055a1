/** Abstract syntax of the statements and expressions both engines are modelled over. */
module Syntax {
  import opened Values

  datatype LogicOp = And | Or | Xor

  datatype Entry = Keyed(key: string, v: Expr)

  // node is the identity of an access node, by which the loop analysis names it.
  datatype Expr =
    | Lit(v: Value)
    | Name(x: string)
    | Context
    | ListLit(items: seq<Expr>)
    | MapLit(fields: seq<Entry>)
    | Attr(node: nat, recv: Expr, field: string, nullSafe: bool)
    | Not(e: Expr)
    | Bin(op: BinOp, l: Expr, r: Expr)
    | Logic(lop: LogicOp, l: Expr, r: Expr)
    | Ternary(c: Expr, a: Expr, b: Expr)
    | Coalesce(l: Expr, r: Expr)
    | Elvis(l: Expr, r: Expr)
    | Assign(x: string, e: Expr)

  datatype Clause =
    | When(cond: Expr, body: seq<Stmt>)
    | Otherwise(body: seq<Stmt>)

  // id is the identity of a for node.  With one target it binds the element; with two, the
  // first binds the key and the second the element.  els is the empty arm, [] when absent.
  datatype Stmt =
    | Text(s: string)
    | Print(e: Expr)
    | Do(e: Expr)
    | Set(x: string, e: Expr)
    | Capture(x: string, body: seq<Stmt>)
    | Apply(body: seq<Stmt>)
    | If(clauses: seq<Clause>)
    | With(m: Expr, only: bool, body: seq<Stmt>)
    | For(id: nat, t1: string, t2: Option<string>, iter: Expr, filter: Option<Expr>,
          body: seq<Stmt>, els: seq<Stmt>)

  function TargetNames(t1: string, t2: Option<string>): seq<string> {
    [t1] + (if t2.Some? then [t2.value] else [])
  }

  // The names a loop binds itself and never copies back.
  function LoopControls(t1: string, t2: Option<string>): set<string> {
    {t1, "loop"} + (if t2.Some? then {t2.value} else {})
  }
}
