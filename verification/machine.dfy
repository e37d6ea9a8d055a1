/** The interpreter as it runs: one object whose scope, output, loop objects and snapshot buffers the
    walk updates in place. */
module Machine {
  import opened Values
  import opened Syntax
  import opened Scopes
  import opened Reuse
  import I = Interp

  class Interpreter {
    const cfg: Config
    var scope: Scope
    var out: string
    var cells: seq<Cell>
    var bufs: seq<seq<(string, Value)>>
    var free: seq<nat>

    constructor (config: Config, root: Scope)
      ensures cfg == config && scope == root && out == "" && Memory() == EMPTY
    {
      cfg, scope, out, cells, bufs, free := config, root, "", [], [], [];
    }

    function Memory(): Heap
      reads this
    {
      Heap(cells, bufs, free)
    }

    // What an evaluation leaves: the value and the scope it wrote, or the error.
    ghost predicate Gives(r: Result<Value>, x: I.EvalR)
      reads this
    {
      match x
      case EFail(e) => r == Err(e)
      case EOk(v, sc) => r == Ok(v) && scope == sc
    }

    // What a statement leaves: the scope, the memory and the output, or the error and the output
    // written before it.
    ghost predicate Leaves(e: Option<Error>, x: HeapR)
      reads this
    {
      match x
      case HFail(er, o) => e == Some(er) && out == o
      case HOk(sc, h, o) => e == None && scope == sc && Memory() == h && out == o
    }

    // ----- expressions -----

    method Evaluate(e: Expr, absent: bool) returns (r: Result<Value>)
      requires scope.Scope?
      modifies this`scope
      ensures Gives(r, Eval(e, old(scope), absent, cfg.lenient, Memory()))
      decreases e, 1
    {
      match e {
        case Lit(v) => r := Ok(v);
        case Name(x) =>
          var v := Get(scope, x);
          r := if v.Some? then Ok(v.value)
               else if absent || cfg.lenient then Ok(Null) else Err(UndefinedName(x, Names(scope)));
        case Context => r := Ok(Arr(I.ContextEntries(Names(scope), scope)));
        case ListLit(items) => r := EvaluateItems(items, 0, []);
        case MapLit(fields) => r := EvaluateFields(fields, []);
        case Attr(_, recv, field, nullSafe) =>
          r := Evaluate(recv, absent);
          if r.Ok? { r := AttrNow(r.value, field, nullSafe, absent, Memory()); }
        case Not(a) =>
          r := Evaluate(a, false);
          if r.Ok? { r := Ok(Bool(!Truthy(r.value))); }
        case Bin(op, l, b) =>
          r := Evaluate(l, false);
          if r.Ok? {
            var v := r.value;
            r := Evaluate(b, false);
            if r.Ok? { r := Binary(op, v, r.value); }
          }
        case Logic(_, _, _) => r := EvaluateLogic(e);
        case Ternary(c, a, b) =>
          r := Evaluate(c, false);
          if r.Ok? {
            if Truthy(r.value) { r := Evaluate(a, false); } else { r := Evaluate(b, false); }
          }
        case Coalesce(l, b) =>
          r := Evaluate(l, true);
          if r.Ok? && r.value.Null? { r := Evaluate(b, false); }
        case Elvis(l, b) =>
          r := Evaluate(l, true);
          if r.Ok? && !Truthy(r.value) { r := Evaluate(b, false); }
        case Assign(x, a) =>
          r := Evaluate(a, false);
          if r.Ok? { scope := SetName(scope, x, r.value); }
      }
    }

    method EvaluateLogic(e: Expr) returns (r: Result<Value>)
      requires e.Logic? && scope.Scope?
      modifies this`scope
      ensures Gives(r, Eval(e, old(scope), false, cfg.lenient, Memory()))
      decreases e, 0
    {
      r := Evaluate(e.l, false);
      if r.Err? { return; }
      var v := Truthy(r.value);
      if e.lop == And && !v { return Ok(Bool(false)); }
      if e.lop == Or && v { return Ok(Bool(true)); }
      r := Evaluate(e.r, false);
      if r.Ok? { r := Ok(Bool(if e.lop == Xor then v != Truthy(r.value) else Truthy(r.value))); }
    }

    method EvaluateItems(items: seq<Expr>, n: nat, acc: seq<(string, Value)>) returns (r: Result<Value>)
      requires scope.Scope?
      modifies this`scope
      ensures Gives(r, EvalItems(items, old(scope), n, acc, cfg.lenient, Memory()))
      decreases items, 0
    {
      if items == [] { return Ok(Arr(acc)); }
      r := Evaluate(items[0], false);
      if r.Ok? { r := EvaluateItems(items[1..], n + 1, Put(acc, IntText(n), r.value)); }
    }

    method EvaluateFields(fields: seq<Entry>, acc: seq<(string, Value)>) returns (r: Result<Value>)
      requires scope.Scope?
      modifies this`scope
      ensures Gives(r, EvalFields(fields, old(scope), acc, cfg.lenient, Memory()))
      decreases fields, 0
    {
      if fields == [] { return Ok(Arr(acc)); }
      r := Evaluate(fields[0].v, false);
      if r.Ok? { r := EvaluateFields(fields[1..], Put(acc, fields[0].key, r.value)); }
    }

    // ----- statements -----

    method ExecItem(s: Stmt) returns (e: Option<Error>)
      requires scope.Scope?
      modifies this
      ensures Leaves(e, Exec(s, old(scope), old(Memory()), old(out), cfg))
      decreases s, 1
    {
      e := None;
      match s {
        case Text(t) => out := out + t;
        case Print(x) =>
          var r := Evaluate(x, false);
          if r.Err? { return Some(r.error); }
          var t := ToText(r.value);
          if t.Err? { return Some(t.error); }
          out := out + t.value;
        case Do(x) =>
          var r := Evaluate(x, false);
          if r.Err? { return Some(r.error); }
        case Set(x, v) =>
          var r := Evaluate(v, false);
          if r.Err? { return Some(r.error); }
          scope := SetName(scope, x, r.value);
        case Capture(x, body) =>
          var text;
          e, text := CaptureItems(body);
          if e.None? { scope := SetName(scope, x, Str(text)); }
        case Apply(body) =>
          var text;
          e, text := CaptureItems(body);
          if e.None? { out := out + text; }
        case If(clauses) => e := ExecClauses(clauses);
        case With(m, only, body) => e := ExecWith(m, only, body);
        case For(_, _, _, iter, _, _, _) =>
          var r := Evaluate(iter, false);
          if r.Err? { return Some(r.error); }
          e := ExecLoop(s, r.value);
      }
    }

    method ExecItems(ss: seq<Stmt>) returns (e: Option<Error>)
      requires scope.Scope?
      modifies this
      ensures Leaves(e, ExecList(ss, old(scope), old(Memory()), old(out), cfg))
      decreases ss, 0
    {
      e := None;
      if ss != [] {
        e := ExecItem(ss[0]);
        if e.None? { e := ExecItems(ss[1..]); }
      }
    }

    // A body rendered into a sink of its own; an error loses what the body wrote.
    method CaptureItems(body: seq<Stmt>) returns (e: Option<Error>, text: string)
      requires scope.Scope?
      modifies this
      ensures out == old(out)
      ensures match ExecList(body, old(scope), old(Memory()), "", cfg)
              case HFail(x, _) => e == Some(x)
              case HOk(sc, h, o) => e == None && scope == sc && Memory() == h && text == o
      decreases body, 1
    {
      var saved := out;
      out := "";
      e := ExecItems(body);
      text := out;
      out := saved;
    }

    method ExecClauses(cs: seq<Clause>) returns (e: Option<Error>)
      requires scope.Scope?
      modifies this
      ensures Leaves(e, ExecIf(cs, old(scope), old(Memory()), old(out), cfg))
      decreases cs, 0
    {
      e := None;
      if cs == [] { return; }
      match cs[0] {
        case Otherwise(body) => e := ExecItems(body);
        case When(c, body) =>
          var r := Evaluate(c, false);
          if r.Err? { return Some(r.error); }
          if Truthy(r.value) { e := ExecItems(body); } else { e := ExecClauses(cs[1..]); }
      }
    }

    // The body runs in a frame of its own, under the scope or under nothing.
    method ExecWith(m: Expr, only: bool, body: seq<Stmt>) returns (e: Option<Error>)
      requires scope.Scope?
      modifies this
      ensures Leaves(e, Exec(With(m, only, body), old(scope), old(Memory()), old(out), cfg))
      decreases body, 1, m
    {
      var r := Evaluate(m, false);
      if r.Err? { return Some(r.error); }
      var outer := scope;
      scope := SetAll(Child(if only then NoScope else outer), WithEntries(r.value));
      e := ExecItems(body);
      scope := outer;
    }

    // ----- loops -----

    method SetTargets(t1: string, t2: Option<string>, p: (string, Value))
      requires scope.Scope?
      modifies this`scope
      ensures scope == I.BindTargets(old(scope), t1, t2, p)
    {
      if t2.Some? {
        scope := SetName(scope, t1, KeyValue(p.0));
        scope := SetName(scope, t2.value, p.1);
      } else {
        scope := SetName(scope, t1, p.1);
      }
    }

    // The candidates are judged in a child scope that persists across them.
    method FilterLoopPairs(s: Stmt, ps: seq<(string, Value)>) returns (r: Result<seq<(string, Value)>>)
      requires s.For? && s.filter.Some? && scope.Scope?
      modifies this`scope
      ensures match FilterPairs(s.filter.value, s.t1, s.t2, ps, Child(old(scope)), [], cfg.lenient, Memory())
              case FFail(x) => r == Err(x)
              case FOk(kept) => r == Ok(kept) && scope == old(scope)
    {
      var outer, kept := scope, [];
      scope := Child(outer);
      for i := 0 to |ps|
        invariant scope.Scope?
        invariant FilterPairs(s.filter.value, s.t1, s.t2, ps[i..], scope, kept, cfg.lenient, Memory())
               == FilterPairs(s.filter.value, s.t1, s.t2, ps, Child(outer), [], cfg.lenient, Memory())
      {
        assert ps[i..][0] == ps[i] && ps[i..][1..] == ps[i + 1..];
        SetTargets(s.t1, s.t2, ps[i]);
        var v := Evaluate(s.filter.value, false);
        if v.Err? { return Err(v.error); }
        if Truthy(v.value) { kept := kept + [ps[i]]; }
      }
      scope := outer;
      r := Ok(kept);
    }

    method ExecLoop(s: Stmt, v: Value) returns (e: Option<Error>)
      requires s.For? && scope.Scope?
      modifies this
      ensures Leaves(e, ExecFor(s, v, old(scope), old(Memory()), old(out), cfg))
      decreases s, 0, 3
    {
      var t := Traverse(v, cfg.lenient);
      if t.Err? { return Some(t.error); }
      if Pooled(s, cfg) && v.Arr? {
        var b := AcquirePairBuf(t.value);
        e := ExecOverBuffer(s, b);
        free := free + [b];
      } else if s.filter.Some? {
        var kept := FilterLoopPairs(s, t.value);
        if kept.Err? { return Some(kept.error); }
        e := ExecOverPairs(s, kept.value);
      } else {
        e := ExecOverPairs(s, t.value);
      }
    }

    method AcquirePairBuf(ps: seq<(string, Value)>) returns (b: nat)
      modifies this`bufs, this`free
      ensures (b, Memory()) == Acquire(old(Memory()), ps, cfg)
    {
      var k := cfg.pick(Memory());
      if k < |free| && free[k] < |bufs| {
        b := free[k];
        free := free[..k] + free[k + 1..];
        bufs := bufs[b := ps];
      } else {
        b := |bufs|;
        bufs := bufs + [ps];
      }
    }

    // Pre-existing names the body rebound are written back, never the loop's own.
    method CopyBackNames(names: seq<string>, bound: set<string>, entries: seq<(string, Value)>)
      requires scope.Scope?
      modifies this`scope
      ensures scope == I.CopyBack(names, bound, entries, old(scope))
    {
      for i := 0 to |names|
        invariant scope.Scope? && scope == I.CopyBack(names[..i], bound, entries, old(scope))
      {
        var upTo := names[..i + 1];
        assert upTo[..i] == names[..i] && upTo[|upTo| - 1] == names[i];
        if names[i] !in bound {
          var v := Get(Scope(entries, scope), names[i]);
          if v.Some? { scope := SetName(scope, names[i], v.value); }
        }
      }
      assert names[..|names|] == names;
    }

    method ExecOverPairs(s: Stmt, ps: seq<(string, Value)>) returns (e: Option<Error>)
      requires s.For? && scope.Scope?
      modifies this
      ensures Leaves(e, ExecFresh(s, ps, old(scope), old(Memory()), old(out), cfg))
      decreases s, 0, 1
    {
      if ps == [] {
        e := ExecItems(s.els);
        return;
      }
      var pre := scope;
      var parent := Get(pre, "loop").GetOr(Null);
      scope := Child(pre);
      ghost var whole := IterFresh(s.body, s.t1, s.t2, ps, 0, parent, scope, Memory(), out, cfg);
      for i := 0 to |ps|
        invariant scope.Scope?
        invariant IterFresh(s.body, s.t1, s.t2, ps, i, parent, scope, Memory(), out, cfg) == whole
      {
        SetTargets(s.t1, s.t2, ps[i]);
        scope := SetName(scope, "loop", Loop(i, ps, parent));
        e := ExecItems(s.body);
        if e.Some? { return; }
      }
      var entries := scope.entries;
      scope := pre;
      CopyBackNames(Names(pre), LoopControls(s.t1, s.t2), entries);
      e := None;
    }

    // One loop object for the whole loop, its index advanced in place.
    method ExecOverBuffer(s: Stmt, b: nat) returns (e: Option<Error>)
      requires s.For? && scope.Scope?
      modifies this
      ensures Leaves(e, ExecPooled(s, b, old(scope), old(Memory()), old(out), cfg))
      decreases s, 0, 2
    {
      var n := |PairsOf(Memory(), b)|;
      if n == 0 {
        e := ExecItems(s.els);
        return;
      }
      var pre, c := scope, |cells|;
      cells := cells + [Cell(0, b, Get(pre, "loop").GetOr(Null))];
      scope := Child(pre);
      ghost var whole := IterPooled(s.body, s.t1, s.t2, b, n, 0, c, scope, Memory(), out, cfg);
      for i := 0 to n
        invariant scope.Scope?
        invariant IterPooled(s.body, s.t1, s.t2, b, n, i, c, scope, Memory(), out, cfg) == whole
      {
        var p := if i < |PairsOf(Memory(), b)| then PairsOf(Memory(), b)[i] else ("", Null);
        SetTargets(s.t1, s.t2, p);
        if c < |cells| { cells := cells[c := cells[c].(index := i)]; }
        scope := SetName(scope, "loop", Ref(c));
        e := ExecItems(s.body);
        if e.Some? { return; }
      }
      var entries := scope.entries;
      scope := pre;
      CopyBackNames(Names(pre), LoopControls(s.t1, s.t2), entries);
      e := None;
    }
  }
}
