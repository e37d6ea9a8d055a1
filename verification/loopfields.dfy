/** What the fields of the loop value mean, in terms of the iterations before and after, and what a loop
    that prints one of them writes, interpreted and compiled. */
module LoopFields {
  import opened Values
  import opened Syntax
  import opened Scopes
  import opened Interp
  import opened Scan
  import opened Target
  import opened Lowering
  import opened Agreement
  import opened Safety
  import opened LoopOpt
  import opened LoopSafe
  import opened Nodes
  import opened ModuleSim
  import Optimized
  import Copying = CopySim
  import ContextSim
  import Escape

  type Pairs = seq<(string, Value)>

  // The field of iteration i of a loop over ps: how many iterations there are up to it, before it,
  // from it and after it, and the elements of its neighbours.
  ghost predicate Means(field: string, v: Value, ps: Pairs, i: nat)
    requires i < |ps|
  {
    var before, after := ps[..i], ps[i + 1..];
    match field
    case "index" => v == Int(|before + [ps[i]]|)
    case "index0" => v == Int(|before|)
    case "revindex" => v == Int(|[ps[i]] + after|)
    case "revindex0" => v == Int(|after|)
    case "length" => v == Int(|before + [ps[i]] + after|)
    case "first" => v == Bool(before == [])
    case "last" => v == Bool(after == [])
    case "prev" => v == if before == [] then Null else before[|before| - 1].1
    case "next" => v == if after == [] then Null else after[0].1
    case _ => false
  }

  // The loop value the interpreter binds holds these.
  lemma FieldMeans(ps: Pairs, i: nat, parent: Value, field: string)
    requires i < |ps| && field in InlineFields()
    ensures var r := GetDot(Loop(i, ps, parent), field, false); r.Ok? && Means(field, r.value, ps, i)
  {
    if i + 1 < |ps| { assert ps[i + 1..] != []; }
  }

  // The arithmetic over the counter computes them.
  lemma CounterMeans(ps: Pairs, i: nat, field: string)
    requires i < |ps| && field in InlineFields() && field != "prev" && field != "next"
    ensures Means(field, CounterField(i, |ps|, field), ps, i)
  {
    if i + 1 < |ps| { assert ps[i + 1..] != []; }
  }

  // Through parent, the fields are those of the enclosing loop's iteration; a name that is no field is
  // undefined.
  lemma ParentMeans(ps: Pairs, i: nat, qs: Pairs, j: nat, parent: Value, field: string, absent: bool)
    requires i < |ps| && j < |qs|
    ensures var r := GetDot(Loop(i, ps, Loop(j, qs, parent)), "parent", absent);
      && r.Ok? && (field in InlineFields() ==> GetDot(r.value, field, false).Ok?
                                               && Means(field, GetDot(r.value, field, false).value, qs, j))
    ensures field !in InlineFields() + {"parent"} ==>
      GetDot(Loop(i, ps, parent), field, absent) == if absent then Ok(Null) else Err(UndefinedKey(field))
  {
    if field in InlineFields() { FieldMeans(qs, j, parent, field); }
  }

  // ----- printing a field -----

  // The fields that have a text whatever the elements are.
  function PrintedFields(): set<string> { {"index", "index0", "revindex", "revindex0", "length", "first", "last"} }

  // What iteration i prints.
  function TextAt(field: string, ps: Pairs, i: nat): string
    requires i < |ps|
  {
    match field
    case "index" => IntText(|ps[..i + 1]|)
    case "index0" => IntText(|ps[..i]|)
    case "revindex" => IntText(|ps[i..]|)
    case "revindex0" => IntText(|ps[i + 1..]|)
    case "first" => if ps[..i] == [] then "true" else "false"
    case "last" => if ps[i + 1..] == [] then "true" else "false"
    case _ => IntText(|ps|)
  }

  // What all iterations print.
  function Texts(field: string, ps: Pairs): (r: seq<string>)
    ensures |r| == |ps| && forall i :: 0 <= i < |ps| ==> r[i] == TextAt(field, ps, i)
  {
    seq(|ps|, i requires 0 <= i < |ps| => TextAt(field, ps, i))
  }

  // The texts from i on, in order.
  function TextFrom(texts: seq<string>, i: nat): string
    requires i <= |texts|
    decreases |texts| - i
  {
    if i == |texts| then "" else texts[i] + TextFrom(texts, i + 1)
  }

  lemma MeansText(field: string, v: Value, ps: Pairs, i: nat)
    requires i < |ps| && field in PrintedFields() && Means(field, v, ps, i)
    ensures ToText(v) == Ok(TextAt(field, ps, i))
  {
    assert |ps[..i] + [ps[i]]| == i + 1 && |[ps[i]] + ps[i + 1..]| == |ps| - i;
    assert |ps[..i] + [ps[i]] + ps[i + 1..]| == |ps|;
  }

  // for x in ps { print loop.field }
  function Reading(field: string): Expr { Attr(1, Name("loop"), field, false) }

  function Body(field: string): seq<Stmt> { [Print(Attr(1, Name("loop"), field, false))] }

  function Printing(x: string, ps: Pairs, field: string): seq<Stmt> {
    [For(0, x, None, Lit(Arr(ps)), None, Body(field), [])]
  }

  // One print in a scope where loop is iteration i.
  lemma PrintOnce(ps: Pairs, i: nat, parent: Value, field: string, sc: Scope, out: string, lenient: bool)
    requires i < |ps| && field in PrintedFields() && sc.Scope? && Get(sc, "loop") == Some(Loop(i, ps, parent))
    ensures ExecList(Body(field), sc, out, lenient) == XOk(sc, out + TextAt(field, ps, i))
  {
    FieldMeans(ps, i, parent, field);
    MeansText(field, GetDot(Loop(i, ps, parent), field, false).value, ps, i);
    assert Body(field)[1..] == [];
    assert Eval(Name("loop"), sc, false, lenient) == EOk(Loop(i, ps, parent), sc);
  }

  // A body that writes one of the texts in each iteration of a loop over ps, and leaves its scope.
  ghost predicate Writes(body: seq<Stmt>, texts: seq<string>, ps: Pairs, lenient: bool) {
    |texts| == |ps| && forall i: nat, parent, sc: Scope, out ::
      i < |ps| && sc.Scope? && Get(sc, "loop") == Some(Loop(i, ps, parent)) ==>
        ExecList(body, sc, out, lenient) == XOk(sc, out + texts[i])
  }

  lemma Holds(sc: Scope, x: string, v: Value)
    requires sc.Scope?
    ensures SetName(sc, x, v).Scope? && Get(SetName(sc, x, v), x) == Some(v)
  {
    SetNameFacts(sc, x, v);
  }

  // The iterations from i on.
  function Onward(body: seq<Stmt>, x: string, ps: Pairs, i: nat, parent: Value, lc: Scope, out: string,
                  lenient: bool): ExecR
    requires i <= |ps| && lc.Scope?
  {
    ExecIter(body, x, None, ps, i, parent, lc, out, lenient)
  }

  // One iteration, and the scope it leaves to the next.
  lemma WriteStep(body: seq<Stmt>, x: string, ps: Pairs, i: nat, parent: Value, texts: seq<string>, lc: Scope,
                  out: string, lenient: bool) returns (sc: Scope)
    requires i < |ps| && lc.Scope? && Writes(body, texts, ps, lenient)
    ensures sc.Scope? && Onward(body, x, ps, i, parent, lc, out, lenient)
        == Onward(body, x, ps, i + 1, parent, sc, out + texts[i], lenient)
  {
    sc := SetName(BindTargets(lc, x, None, ps[i]), "loop", Loop(i, ps, parent));
    Holds(BindTargets(lc, x, None, ps[i]), "loop", Loop(i, ps, parent));
    assert ExecList(body, sc, out, lenient) == XOk(sc, out + texts[i]);
  }

  lemma {:induction false} WriteAll(body: seq<Stmt>, x: string, ps: Pairs, i: nat, parent: Value, texts: seq<string>,
                                    lc: Scope, out: string, lenient: bool)
    requires i <= |ps| && lc.Scope? && Writes(body, texts, ps, lenient)
    ensures var r := Onward(body, x, ps, i, parent, lc, out, lenient);
      r.XOk? && r.out == out + TextFrom(texts, i)
    decreases |ps| - i
  {
    if i < |ps| {
      var sc := WriteStep(body, x, ps, i, parent, texts, lc, out, lenient);
      WriteAll(body, x, ps, i + 1, parent, texts, sc, out + texts[i], lenient);
      Joined(out, texts[i], TextFrom(texts, i + 1));
    }
  }

  lemma PrintAll(x: string, ps: Pairs, parent: Value, field: string, lc: Scope, lenient: bool)
    requires field in PrintedFields() && lc.Scope?
    ensures var r := ExecIter(Body(field), x, None, ps, 0, parent, lc, "", lenient);
      r.XOk? && r.out == TextFrom(Texts(field, ps), 0)
  {
    forall i: nat, parent, sc: Scope, out | i < |ps| && sc.Scope? && Get(sc, "loop") == Some(Loop(i, ps, parent))
      ensures ExecList(Body(field), sc, out, lenient) == XOk(sc, out + Texts(field, ps)[i])
    {
      PrintOnce(ps, i, parent, field, sc, out, lenient);
    }
    WriteAll(Body(field), x, ps, 0, parent, Texts(field, ps), lc, "", lenient);
  }

  lemma Joined(a: string, b: string, c: string)
    ensures a + b + c == a + (b + c)
  {
  }

  // Interpreted, the loop writes the texts of its iterations in order: loop.index writes 1 to |ps|.
  lemma InterpretedPrints(x: string, ps: Pairs, field: string, sc: Scope, lenient: bool)
    requires field in PrintedFields() && sc.Scope?
    ensures var r := ExecList(Printing(x, ps, field), sc, "", lenient); r.XOk? && r.out == TextFrom(Texts(field, ps), 0)
  {
    var s := Printing(x, ps, field)[0];
    PrintAll(x, ps, Get(sc, "loop").GetOr(Null), field, Child(sc), lenient);
    PrintedArms(s, ps, sc, lenient);
    OneItem(s, sc, lenient);
    if ps == [] { assert TextFrom(Texts(field, ps), 0) == ""; }
  }

  lemma OneItem(s: Stmt, sc: Scope, lenient: bool)
    requires sc.Scope?
    ensures ExecList([s], sc, "", lenient) == Exec(s, sc, "", lenient)
  {
    assert [s][1..] == [];
  }

  lemma PrintedArms(s: Stmt, ps: Pairs, sc: Scope, lenient: bool)
    requires s.For? && s.filter.None? && s.iter == Lit(Arr(ps)) && s.els == [] && sc.Scope?
    ensures var r := ExecIter(s.body, s.t1, s.t2, ps, 0, Get(sc, "loop").GetOr(Null), Child(sc), "", lenient);
      var e := Exec(s, sc, "", lenient);
      if ps == [] then e == XOk(sc, "") else if r.XOk? then e.XOk? && e.out == r.out else e == r
  {
    assert Eval(s.iter, sc, false, lenient) == EOk(Arr(ps), sc);
    assert Exec(s, sc, "", lenient) == ExecFor(s, Arr(ps), sc, "", lenient) == ExecArms(s, ps, sc, "", lenient);
    assert ExecList([], sc, "", lenient) == XOk(sc, "");
  }

  // ----- compiled -----

  // The analysis records one read of the loop and nothing against it, so the loop is inline and the
  // read is counter arithmetic.
  lemma PrintingPlan(x: string, ps: Pairs, field: string, lenient: bool)
    requires x != "loop" && field in PrintedFields()
    ensures WalkModule(Printing(x, ps, field)) == Walk([0], {}, map[], [ChainRead(1, [0], field)], {})
    ensures Least(WalkModule(Printing(x, ps, field)), {})
    ensures PlanOf(WalkModule(Printing(x, ps, field)), {}, lenient) == Plan(lenient, {0}, map[1 := (0, field)])
  {
    var none, w := Walk([], {}, map[], [], {}), Walk([0], {}, map[], [], {});
    var end, ss := Walk([0], {}, map[], [ChainRead(1, [0], field)], {}), Printing(x, ps, field);
    PrintingWalk(x, ps, field);
    assert ss[1..] == [] && WalkModule(ss) == end;
    assert end.chains[..0] == [];
    assert [0][1..] == [];
    assert Approve(end.chains[..0], {}, {}) == map[];
    assert (set n | n in end.visited && n !in {}) == {0};
  }

  lemma PrintingWalk(x: string, ps: Pairs, field: string)
    requires x != "loop" && field in PrintedFields()
    ensures WalkS(Printing(x, ps, field)[0], ARoot, Walk([], {}, map[], [], {}))
         == Walk([0], {}, map[], [ChainRead(1, [0], field)], {})
  {
    var none, w := Walk([], {}, map[], [], {}), Walk([0], {}, map[], [], {});
    var s, st := Printing(x, ps, field)[0], APush(ALoop(0), ARoot);
    assert Enter(s, ARoot, none) == w && WalkE(s.iter, ARoot, none) == none;
    assert TryChain(Reading(field), st) == Some(ChainRead(1, [0], field));
    assert Body(field)[1..] == [];
    assert WalkL(Body(field), st, w) == WalkE(Reading(field), st, w);
  }

  lemma PrintingIdentified(x: string, ps: Pairs, field: string)
    ensures Identified(Printing(x, ps, field)) && NoApplyL(Printing(x, ps, field))
  {
    var ss, s := Printing(x, ps, field), Printing(x, ps, field)[0];
    assert ss[1..] == [] && Body(field)[1..] == [];
    assert AccessE(Name("loop"), false) == {} && AccessE(Reading(field), false) == {(1, field, false)};
    assert AccessS(Body(field)[0], false) == {(1, field, false)};
    assert AccessL(Body(field), false) == AccessS(Body(field)[0], false) + AccessL([], false) == {(1, field, false)};
    assert AccessS(s, false) == {(1, field, false)};
    assert LoopsS(Body(field)[0], false) == {} && LoopsL(Body(field), false) == {};
    assert LoopsS(s, false) == {(0, false)};
    assert AccessL(ss, false) == AccessS(s, false) + AccessL([], false) == {(1, field, false)};
    assert LoopsL(ss, false) == LoopsS(s, false) + LoopsL([], false) == {(0, false)};
    assert NoApplyS(Body(field)[0]) && NoApplyL(Body(field)) && NoApplyL(s.els);
    assert NoApplyS(s) && NoApplyL([]);
  }

  // Compiled, with a loop object and with counters alone, it writes the same.
  lemma CompiledPrints(x: string, ps: Pairs, field: string, lenient: bool, order: seq<string>, vars: Vars)
    requires x != "loop" && field in PrintedFields() && Listed(order, vars)
    ensures forall plan :: plan in {PlainPlan(lenient), Plan(lenient, {0}, map[1 := (0, field)])} ==>
      var r := Run(LowerModule(Printing(x, ps, field), plan).code, Start(order), vars);
      r.ROk? && r.s.out == TextFrom(Texts(field, ps), 0)
  {
    var ss := Printing(x, ps, field);
    InterpretedPrints(x, ps, field, RootScope(order, vars), lenient);
    PlainRenders(ss, lenient, order, vars);
    PrintingPlan(x, ps, field, lenient);
    PrintingIdentified(x, ps, field);
    Optimized.OptimizedRenders(ss, {}, lenient, order, vars);
  }

  // The interpreter's own analysis clears the loop, so that it advances one loop object in place.
  lemma PrintingCleared(x: string, ps: Pairs, field: string)
    requires x != "loop" && field in PrintedFields()
    ensures var w := Escape.ScanModule(Printing(x, ps, field));
      Escape.LeastLinked({}, w) && Escape.SafeOf(w, {}) == {0}
  {
    var ss, s, st := Printing(x, ps, field), Printing(x, ps, field)[0], APush(ALoop(0), ARoot);
    var w := Escape.Found([0], {}, {}, map[]);
    assert Escape.Entered(s, ARoot, Escape.NOTHING) == w && Escape.ScanE(s.iter, ARoot, Escape.NOTHING)
        == Escape.NOTHING;
    assert Escape.SafeRead(Reading(field), st);
    assert Body(field)[1..] == [] && Escape.ScanL(Body(field), st, w) == Escape.ScanE(Reading(field), st, w) == w;
    assert Escape.ScanS(s, ARoot, Escape.NOTHING) == w;
    assert ss[1..] == [] && Escape.ScanModule(ss) == w;
  }

  // ----- what a loop leaves behind -----

  // After its last iteration a loop leaves every name it finds but its targets and loop with the value
  // the iterations left it with, and no other name changed.
  lemma LoopLeaves(s: Stmt, ps: Pairs, sc: Scope, out: string, lenient: bool, y: string)
    requires s.For? && ps != [] && sc.Scope?
    requires ExecIter(s.body, s.t1, s.t2, ps, 0, Get(sc, "loop").GetOr(Null), Child(sc), out, lenient).XOk?
    ensures var lc := ExecIter(s.body, s.t1, s.t2, ps, 0, Get(sc, "loop").GetOr(Null), Child(sc), out, lenient).sc;
      var r := ExecArms(s, ps, sc, out, lenient);
      && r.XOk? && Names(r.sc) == Names(sc)
      && Get(r.sc, y) == if y in Names(sc) && y != s.t1 && s.t2 != Some(y)
          && y != "loop" then Get(lc, y) else Get(sc, y)
  {
    var lc := ExecIter(s.body, s.t1, s.t2, ps, 0, Get(sc, "loop").GetOr(Null), Child(sc), out, lenient).sc;
    ContextSim.NamesNoDup(sc);
    forall x | x in Names(sc) ensures Get(sc, x).Some? { NamesGet(sc, x); }
    Copying.CopyBackFacts(Names(sc), LoopControls(s.t1, s.t2), lc, sc, y);
  }
}
