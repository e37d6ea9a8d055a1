/** The frame prescan as it runs: names collected once each, in first-appearance order. */
module Collector {
  import opened Values
  import opened Syntax
  import opened Scan

  lemma {:induction false} AddNamesThen(names: seq<string>, a: seq<string>, b: seq<string>)
    ensures AddNames(names, a + b) == AddNames(AddNames(names, a), b)
  {
    if b == [] {
      assert a + b == a;
    } else {
      assert (a + b)[..|a + b| - 1] == a + b[..|b| - 1];
      AddNamesThen(names, a, b[..|b| - 1]);
    }
  }

  class NameCollector {
    var names: seq<string>
    var seen: set<string>

    ghost predicate Valid()
      reads this
    {
      forall x :: x in seen <==> x in names
    }

    constructor ()
      ensures Valid() && names == []
    {
      names, seen := [], {};
    }

    method Add(x: string)
      requires Valid()
      modifies this
      ensures Valid() && names == AddNames(old(names), [x])
    {
      assert [x][..0] == [];
      assert AddNames(names, [x]) == AddName(AddNames(names, []), x);
      if x in seen { return; }
      seen := seen + {x};
      names := names + [x];
    }

    method ExprNames(e: Expr)
      requires Valid()
      modifies this
      ensures Valid() && names == AddNames(old(names), ExprBinds(e))
      decreases e, 1
    {
      match e {
        case Lit(_) =>
        case Name(_) =>
        case Context =>
        case ListLit(items) => ItemsNames(items);
        case MapLit(fields) => FieldsNames(fields);
        case Attr(_, recv, _, _) => ExprNames(recv);
        case Not(a) => ExprNames(a);
        case Bin(_, l, r) => PairNames(e, l, r);
        case Logic(_, l, r) => PairNames(e, l, r);
        case Ternary(c, a, b) =>
          PairNames(e, c, a);
          ExprNames(b);
          AddNamesThen(old(names), ExprBinds(c) + ExprBinds(a), ExprBinds(b));
        case Coalesce(l, r) => PairNames(e, l, r);
        case Elvis(l, r) => PairNames(e, l, r);
        case Assign(x, a) =>
          Add(x);
          ExprNames(a);
          AddNamesThen(old(names), [x], ExprBinds(a));
      }
    }

    method PairNames(ghost e: Expr, l: Expr, r: Expr)
      requires Valid() && l < e && r < e
      modifies this
      ensures Valid() && names == AddNames(old(names), ExprBinds(l) + ExprBinds(r))
      decreases e, 0
    {
      ExprNames(l);
      ExprNames(r);
      AddNamesThen(old(names), ExprBinds(l), ExprBinds(r));
    }

    method ItemsNames(items: seq<Expr>)
      requires Valid()
      modifies this
      ensures Valid() && names == AddNames(old(names), ItemsBinds(items))
      decreases items, 0
    {
      if items != [] {
        ExprNames(items[0]);
        ItemsNames(items[1..]);
        AddNamesThen(old(names), ExprBinds(items[0]), ItemsBinds(items[1..]));
      }
    }

    method FieldsNames(fields: seq<Entry>)
      requires Valid()
      modifies this
      ensures Valid() && names == AddNames(old(names), FieldsBinds(fields))
      decreases fields, 0
    {
      if fields != [] {
        ExprNames(fields[0].v);
        FieldsNames(fields[1..]);
        AddNamesThen(old(names), ExprBinds(fields[0].v), FieldsBinds(fields[1..]));
      }
    }

    method StmtNames(s: Stmt)
      requires Valid()
      modifies this
      ensures Valid() && names == AddNames(old(names), StmtBinds(s))
      decreases s, 1
    {
      match s {
        case Text(_) =>
        case Print(e) => ExprNames(e);
        case Do(e) => ExprNames(e);
        case Set(x, e) =>
          Add(x);
          ExprNames(e);
          AddNamesThen(old(names), [x], ExprBinds(e));
        case Capture(x, body) =>
          Add(x);
          ListNames(body);
          AddNamesThen(old(names), [x], ListBinds(body));
        case Apply(body) => ListNames(body);
        case If(clauses) => ClausesNames(clauses);
        case With(m, _, _) => ExprNames(m);
        case For(_, _, _, _, _, _, _) => ForNames(s);
      }
    }

    // The names a loop binds in its parent frame: the iterand's, those its body would copy back, and
    // the else body's.
    method ForNames(s: Stmt)
      requires Valid() && s.For?
      modifies this
      ensures Valid() && names == AddNames(old(names), StmtBinds(s))
      decreases s, 0
    {
      ExprNames(s.iter);
      var inner := new NameCollector();
      inner.ListNames(s.body);
      var kept := Without(inner.names, LoopControls(s.t1, s.t2));
      ghost var before := names;
      for i := 0 to |kept|
        invariant Valid() && names == AddNames(before, kept[..i])
      {
        Add(kept[i]);
        assert kept[..i + 1] == kept[..i] + [kept[i]];
        AddNamesThen(before, kept[..i], [kept[i]]);
      }
      assert kept[..|kept|] == kept;
      AddNamesThen(old(names), ExprBinds(s.iter), kept);
      ListNames(s.els);
      AddNamesThen(old(names), ExprBinds(s.iter) + kept, ListBinds(s.els));
    }

    method ListNames(ss: seq<Stmt>)
      requires Valid()
      modifies this
      ensures Valid() && names == AddNames(old(names), ListBinds(ss))
      decreases ss, 0
    {
      if ss != [] {
        StmtNames(ss[0]);
        ListNames(ss[1..]);
        AddNamesThen(old(names), StmtBinds(ss[0]), ListBinds(ss[1..]));
      }
    }

    method ClausesNames(cl: seq<Clause>)
      requires Valid()
      modifies this
      ensures Valid() && names == AddNames(old(names), ClausesBinds(cl))
      decreases cl, 0
    {
      if cl != [] {
        ghost var own := match cl[0]
                         case When(c, body) => ExprBinds(c) + ListBinds(body)
                         case Otherwise(body) => ListBinds(body);
        match cl[0] {
          case When(c, body) =>
            ExprNames(c);
            ListNames(body);
            AddNamesThen(old(names), ExprBinds(c), ListBinds(body));
          case Otherwise(body) => ListNames(body);
        }
        ClausesNames(cl[1..]);
        AddNamesThen(old(names), own, ClausesBinds(cl[1..]));
      }
    }
  }

  // The prescan of a frame.
  method CollectNames(ss: seq<Stmt>) returns (names: seq<string>)
    ensures names == BindNames(ss)
  {
    var c := new NameCollector();
    c.ListNames(ss);
    names := c.names;
  }
}
