/** The gradual type checker's consistency relation. */
module Consistency {

  datatype Kind = KNull | KBool | KInt | KFloat | KString

  datatype Type =
    | Any
    | Never
    | Scalar(kind: Kind)
    | Object(name: string)
    | List(elem: Type)
    | Map(key: Type, val: Type)
    | Arrow(params: seq<Type>, ret: Type)
    | Union(arms: seq<Type>)

  // Declared supertypes by object type.  The declarations are acyclic: rank decreases along them.
  datatype Registry = Registry(supers: map<string, seq<string>>, rank: map<string, nat>)
  {
    function RankOf(name: string): nat {
      if name in rank then rank[name] else 0
    }

    predicate Acyclic() {
      forall n <- supers, i | 0 <= i < |supers[n]| :: RankOf(supers[n][i]) < RankOf(n)
    }

    predicate SubtypeOf(sub: string, sup: string)
      requires Acyclic()
      decreases RankOf(sub)
    {
      sub == sup
      || (sub in supers && exists i | 0 <= i < |supers[sub]| :: SubtypeOf(supers[sub][i], sup))
    }
  }

  lemma {:induction false} SubtypeTransitive(reg: Registry, a: string, b: string, c: string)
    requires reg.Acyclic() && reg.SubtypeOf(a, b) && reg.SubtypeOf(b, c)
    ensures reg.SubtypeOf(a, c)
    decreases reg.RankOf(a)
  {
    if a != b {
      var i :| 0 <= i < |reg.supers[a]| && reg.SubtypeOf(reg.supers[a][i], b);
      SubtypeTransitive(reg, reg.supers[a][i], b, c);
    }
  }

  // Whether a value of type s may flow into a context expecting t.
  predicate Consistent(s: Type, t: Type, reg: Registry)
    requires reg.Acyclic()
    decreases s, t
  {
    if s.Any? || t.Any? then true
    else if s.Never? then true
    else if s.Union? then forall i | 0 <= i < |s.arms| :: Consistent(s.arms[i], t, reg)
    else if t.Union? then exists i | 0 <= i < |t.arms| :: Consistent(s, t.arms[i], reg)
    else
      match (s, t)
      case (Object(a), Object(b)) => reg.SubtypeOf(a, b)
      case (List(a), List(b)) => Consistent(a, b, reg)
      case (Map(k, v), Map(l, w)) => Consistent(k, l, reg) && Consistent(v, w, reg)
      case (Arrow(ps, r), Arrow(qs, q)) =>
        |ps| == |qs| && (forall i | 0 <= i < |ps| :: Consistent(ps[i], qs[i], reg)) && Consistent(r, q, reg)
      case (Scalar(a), Scalar(b)) => a == b
      case _ => false
  }

  // ----- any is a waypoint -----

  // a is t with some subtrees replaced by any.
  predicate Blurs(a: Type, t: Type) {
    a.Any?
    || (match (a, t)
        case (Never, Never) => true
        case (Scalar(x), Scalar(y)) => x == y
        case (Object(x), Object(y)) => x == y
        case (List(x), List(y)) => Blurs(x, y)
        case (Map(k, v), Map(l, w)) => Blurs(k, l) && Blurs(v, w)
        case (Arrow(ps, r), Arrow(qs, q)) => |ps| == |qs| && (forall i | 0 <= i < |ps| :: Blurs(ps[i], qs[i]))
            && Blurs(r, q)
        case (Union(xs), Union(ys)) => |xs| == |ys| && forall i | 0 <= i < |xs| :: Blurs(xs[i], ys[i])
        case _ => false)
  }

  // Losing type information on either side never breaks a flow.
  lemma {:induction false} BlurConsistent(a: Type, s: Type, b: Type, t: Type, reg: Registry)
    requires reg.Acyclic() && Consistent(s, t, reg) && Blurs(a, s) && Blurs(b, t)
    ensures Consistent(a, b, reg)
    decreases s, t
  {
    if a.Any? || b.Any? || s.Never? || s.Any? || t.Any? {
    } else if s.Union? {
      forall i | 0 <= i < |a.arms| ensures Consistent(a.arms[i], b, reg) {
        BlurConsistent(a.arms[i], s.arms[i], b, t, reg);
      }
    } else if t.Union? {
      var i :| 0 <= i < |t.arms| && Consistent(s, t.arms[i], reg);
      BlurConsistent(a, s, b.arms[i], t.arms[i], reg);
    } else {
      match s {
        case List(x) => BlurConsistent(a.elem, x, b.elem, t.elem, reg);
        case Map(k, v) =>
          BlurConsistent(a.key, k, b.key, t.key, reg);
          BlurConsistent(a.val, v, b.val, t.val, reg);
        case Arrow(ps, r) =>
          forall i | 0 <= i < |ps| ensures Consistent(a.params[i], b.params[i], reg) {
            BlurConsistent(a.params[i], ps[i], b.params[i], t.params[i], reg);
          }
          BlurConsistent(a.ret, r, b.ret, t.ret, reg);
        case _ =>
      }
    }
  }

  // ----- a preorder away from any -----

  predicate AnyFree(t: Type) {
    match t
    case Any => false
    case List(x) => AnyFree(x)
    case Map(k, v) => AnyFree(k) && AnyFree(v)
    case Arrow(ps, r) => (forall i | 0 <= i < |ps| :: AnyFree(ps[i])) && AnyFree(r)
    case Union(xs) => forall i | 0 <= i < |xs| :: AnyFree(xs[i])
    case _ => true
  }

  // Through a type without any, consistency is transitive, whatever the outer types hold.
  lemma {:induction false} ConsistentTransitive(s: Type, t: Type, u: Type, reg: Registry)
    requires reg.Acyclic() && AnyFree(t)
    requires Consistent(s, t, reg) && Consistent(t, u, reg)
    ensures Consistent(s, u, reg)
    decreases s, t, u
  {
    if s.Any? || s.Never? || u.Any? {
    } else if s.Union? {
      forall i | 0 <= i < |s.arms| ensures Consistent(s.arms[i], u, reg) { ConsistentTransitive(s.arms[i], t, u, reg); }
    } else if t.Union? {
      var i :| 0 <= i < |t.arms| && Consistent(s, t.arms[i], reg);
      ConsistentTransitive(s, t.arms[i], u, reg);
    } else if u.Union? {
      var i :| 0 <= i < |u.arms| && Consistent(t, u.arms[i], reg);
      ConsistentTransitive(s, t, u.arms[i], reg);
    } else {
      match s {
        case Object(a) => SubtypeTransitive(reg, a, t.name, u.name);
        case List(x) => ConsistentTransitive(x, t.elem, u.elem, reg);
        case Map(k, v) =>
          ConsistentTransitive(k, t.key, u.key, reg);
          ConsistentTransitive(v, t.val, u.val, reg);
        case Arrow(ps, r) =>
          forall i | 0 <= i < |ps| ensures Consistent(ps[i], u.params[i], reg) {
            ConsistentTransitive(ps[i], t.params[i], u.params[i], reg);
          }
          ConsistentTransitive(r, t.ret, u.ret, reg);
        case _ =>
      }
    }
  }

  // ----- objects -----

  // Declared edges from one object type to the next.
  predicate Edges(path: seq<string>, reg: Registry) {
    forall i :: 0 <= i < |path| - 1 ==> path[i] in reg.supers && path[i + 1] in reg.supers[path[i]]
  }

  lemma {:induction false} SubtypeByEdges(a: string, b: string, reg: Registry) returns (path: seq<string>)
    requires reg.Acyclic() && reg.SubtypeOf(a, b)
    ensures path != [] && path[0] == a && path[|path| - 1] == b && Edges(path, reg)
    decreases reg.RankOf(a)
  {
    if a == b {
      path := [a];
    } else {
      var i :| 0 <= i < |reg.supers[a]| && reg.SubtypeOf(reg.supers[a][i], b);
      var rest := SubtypeByEdges(reg.supers[a][i], b, reg);
      path := [a] + rest;
    }
  }

  lemma {:induction false} EdgesSubtype(path: seq<string>, reg: Registry)
    requires reg.Acyclic() && path != [] && Edges(path, reg)
    ensures reg.SubtypeOf(path[0], path[|path| - 1])
    decreases |path|
  {
    if |path| > 1 {
      var i :| 0 <= i < |reg.supers[path[0]]| && reg.supers[path[0]][i] == path[1];
      assert Edges(path[1..], reg) by { assert forall k :: 0 <= k < |path| - 1 ==> path[1..][k] == path[k + 1]; }
      EdgesSubtype(path[1..], reg);
    }
  }

  // An object flows into another exactly when declared edges lead from the one to the other.
  lemma ObjectFlows(a: string, b: string, reg: Registry)
    requires reg.Acyclic()
    ensures Consistent(Object(a), Object(b), reg)
      <==> exists path :: path != [] && path[0] == a && path[|path| - 1] == b && Edges(path, reg)
  {
    if reg.SubtypeOf(a, b) { var path := SubtypeByEdges(a, b, reg); }
    if path :| path != [] && path[0] == a && path[|path| - 1] == b && Edges(path, reg) { EdgesSubtype(path, reg); }
  }

  // What flows into an arm flows into the union, however deeply the source is itself a union.
  lemma {:induction false} IntoUnion(s: Type, arms: seq<Type>, i: nat, reg: Registry)
    requires reg.Acyclic() && i < |arms| && Consistent(s, arms[i], reg)
    ensures Consistent(s, Union(arms), reg)
    decreases s
  {
    if s.Union? {
      forall k | 0 <= k < |s.arms| ensures Consistent(s.arms[k], Union(arms), reg) {
        if !arms[i].Any? { assert Consistent(s.arms[k], arms[i], reg); }
        IntoUnion(s.arms[k], arms, i, reg);
      }
    } else {
      assert Union(arms).arms[i] == arms[i];
    }
  }

  lemma {:induction false} ConsistentReflexive(t: Type, reg: Registry)
    requires reg.Acyclic()
    ensures Consistent(t, t, reg)
    decreases t
  {
    match t {
      case List(x) => ConsistentReflexive(x, reg);
      case Map(k, v) => ConsistentReflexive(k, reg); ConsistentReflexive(v, reg);
      case Arrow(ps, r) =>
        forall i | 0 <= i < |ps| ensures Consistent(ps[i], ps[i], reg) { ConsistentReflexive(ps[i], reg); }
        ConsistentReflexive(r, reg);
      case Union(xs) =>
        forall i | 0 <= i < |xs| ensures Consistent(xs[i], t, reg) {
          ConsistentReflexive(xs[i], reg);
          IntoUnion(xs[i], xs, i, reg);
        }
      case _ =>
    }
  }

  // ----- any and only any breaks the composition -----

  // The object names a type mentions.
  function Names(t: Type): set<string> {
    match t
    case Object(n) => {n}
    case List(x) => Names(x)
    case Map(k, v) => Names(k) + Names(v)
    case Arrow(ps, r) => (set i, n | 0 <= i < |ps| && n in Names(ps[i]) :: n) + Names(r)
    case Union(xs) => set i, n | 0 <= i < |xs| && n in Names(xs[i]) :: n
    case _ => {}
  }

  // t with every any replaced by w.
  function Sharpen(t: Type, w: Type): (r: Type)
    ensures t.Any? ==> r == w
    ensures !t.Any? ==> !r.Any? || w.Any?
  {
    match t
    case Any => w
    case List(x) => List(Sharpen(x, w))
    case Map(k, v) => Map(Sharpen(k, w), Sharpen(v, w))
    case Arrow(ps, r) => Arrow(seq(|ps|, i requires 0 <= i < |ps| => Sharpen(ps[i], w)), Sharpen(r, w))
    case Union(xs) => Union(seq(|xs|, i requires 0 <= i < |xs| => Sharpen(xs[i], w)))
    case _ => t
  }

  lemma {:induction false} SharpenBlurs(t: Type, w: Type)
    requires AnyFree(w)
    ensures AnyFree(Sharpen(t, w)) && Blurs(t, Sharpen(t, w))
    decreases t
  {
    match t {
      case List(x) => SharpenBlurs(x, w);
      case Map(k, v) => SharpenBlurs(k, w); SharpenBlurs(v, w);
      case Arrow(ps, r) =>
        SharpenBlurs(r, w);
        forall i | 0 <= i < |ps| ensures AnyFree(Sharpen(ps[i], w)) && Blurs(ps[i], Sharpen(ps[i], w)) {
          SharpenBlurs(ps[i], w);
        }
      case Union(xs) =>
        forall i | 0 <= i < |xs| ensures AnyFree(Sharpen(xs[i], w)) && Blurs(xs[i], Sharpen(xs[i], w)) {
          SharpenBlurs(xs[i], w);
        }
      case _ =>
    }
  }

  // A name stays, and the new type's come in exactly where there was an any.
  lemma {:induction false} SharpenNames(t: Type, w: Type, n: string)
    ensures n in Names(Sharpen(t, w)) <==> n in Names(t) || (!AnyFree(t) && n in Names(w))
    decreases t
  {
    match t {
      case List(x) => SharpenNames(x, w, n);
      case Map(k, v) => SharpenNames(k, w, n); SharpenNames(v, w, n);
      case Arrow(ps, r) => SharpenArms(ps, w, n); SharpenNames(r, w, n); ArrowNames(ps, r, w, n);
      case Union(xs) => SharpenArms(xs, w, n); UnionNames(xs, w, n);
      case _ =>
    }
  }

  ghost predicate Mentioned(ts: seq<Type>, n: string) { exists i :: 0 <= i < |ts| && n in Names(ts[i]) }

  ghost predicate AllFree(ts: seq<Type>) { forall i :: 0 <= i < |ts| ==> AnyFree(ts[i]) }

  function SharpenEach(ts: seq<Type>, w: Type): seq<Type> { seq(|ts|, i requires 0 <= i < |ts| => Sharpen(ts[i], w)) }

  lemma {:induction false} SharpenArms(ts: seq<Type>, w: Type, n: string)
    ensures Mentioned(SharpenEach(ts, w), n) <==> Mentioned(ts, n) || (!AllFree(ts) && n in Names(w))
    decreases ts
  {
    var rs := SharpenEach(ts, w);
    forall i | 0 <= i < |ts|
      ensures n in Names(rs[i]) <==> n in Names(ts[i]) || (!AnyFree(ts[i]) && n in Names(w))
    {
      SharpenNames(ts[i], w, n);
    }
    if Mentioned(ts, n) {
      var i :| 0 <= i < |ts| && n in Names(ts[i]);
      assert n in Names(rs[i]);
    } else if !AllFree(ts) && n in Names(w) {
      var i :| 0 <= i < |ts| && !AnyFree(ts[i]);
      assert n in Names(rs[i]);
    }
  }

  lemma UnionNames(ts: seq<Type>, w: Type, n: string)
    ensures n in Names(Union(ts)) <==> Mentioned(ts, n)
    ensures n in Names(Sharpen(Union(ts), w)) <==> Mentioned(SharpenEach(ts, w), n)
    ensures AnyFree(Union(ts)) == AllFree(ts)
  {
    assert Sharpen(Union(ts), w) == Union(SharpenEach(ts, w));
  }

  lemma ArrowNames(ts: seq<Type>, r: Type, w: Type, n: string)
    ensures n in Names(Arrow(ts, r)) <==> Mentioned(ts, n) || n in Names(r)
    ensures n in Names(Sharpen(Arrow(ts, r), w)) <==> Mentioned(SharpenEach(ts, w), n) || n in Names(Sharpen(r, w))
    ensures AnyFree(Arrow(ts, r)) == (AllFree(ts) && AnyFree(r))
  {
    assert Sharpen(Arrow(ts, r), w) == Arrow(SharpenEach(ts, w), Sharpen(r, w));
  }

  // Nothing that mentions an object without declared supertypes flows where that object is not mentioned.
  lemma {:induction false} NoWayIn(s: Type, u: Type, f: string, reg: Registry)
    requires reg.Acyclic() && AnyFree(s) && AnyFree(u) && f !in reg.supers && f in Names(s) && f !in Names(u)
    ensures !Consistent(s, u, reg)
    decreases s, u
  {
    if s.Union? {
      var i :| 0 <= i < |s.arms| && f in Names(s.arms[i]);
      NoWayIn(s.arms[i], u, f, reg);
    } else if u.Union? {
      forall i | 0 <= i < |u.arms| ensures !Consistent(s, u.arms[i], reg) { NoWayIn(s, u.arms[i], f, reg); }
    } else {
      match (s, u) {
        case (List(a), List(b)) => NoWayIn(a, b, f, reg);
        case (Map(k, v), Map(l, w)) => if f in Names(k) { NoWayIn(k, l, f, reg); } else { NoWayIn(v, w, f, reg); }
        case (Arrow(ps, r), Arrow(qs, q)) =>
          if f in Names(r) {
            NoWayIn(r, q, f, reg);
          } else if |ps| == |qs| {
            var i :| 0 <= i < |ps| && f in Names(ps[i]);
            NoWayIn(ps[i], qs[i], f, reg);
          }
        case _ =>
      }
    }
  }

  lemma {:induction false} BlursSelf(t: Type)
    ensures Blurs(t, t)
    decreases t
  {
    match t {
      case List(x) => BlursSelf(x);
      case Map(k, v) => BlursSelf(k); BlursSelf(v);
      case Arrow(ps, r) =>
        forall i | 0 <= i < |ps| ensures Blurs(ps[i], ps[i]) { BlursSelf(ps[i]); }
        BlursSelf(r);
      case Union(xs) => forall i | 0 <= i < |xs| ensures Blurs(xs[i], xs[i]) { BlursSelf(xs[i]); }
      case _ =>
    }
  }

  // A name in none of a finite set.
  lemma {:induction false} Unused(names: set<string>) returns (f: string)
    ensures f !in names && forall n :: n in names ==> |n| < |f|
    decreases names
  {
    if names == {} {
      f := "f";
    } else {
      var n :| n in names;
      f := Unused(names - {n});
      if |f| <= |n| { f := n + "f"; }
    }
  }

  // t may stand in the middle of any flow.
  ghost predicate Composes(t: Type, reg: Registry)
    requires reg.Acyclic()
  {
    forall s, u :: Consistent(s, t, reg) && Consistent(t, u, reg) ==> Consistent(s, u, reg)
  }

  // A middle type composes flows exactly when it holds no any, at any depth.
  lemma ComposesExact(t: Type, reg: Registry)
    requires reg.Acyclic()
    ensures Composes(t, reg) <==> AnyFree(t)
  {
    if AnyFree(t) {
      forall s, u | Consistent(s, t, reg) && Consistent(t, u, reg) ensures Consistent(s, u, reg) {
        ConsistentTransitive(s, t, u, reg);
      }
    } else {
      var f := Unused(Names(t) + (set n | n in reg.supers));
      var s, u := Sharpen(t, Object(f)), Sharpen(t, Scalar(KInt));
      SharpenBlurs(t, Object(f));
      SharpenBlurs(t, Scalar(KInt));
      SharpenNames(t, Object(f), f);
      SharpenNames(t, Scalar(KInt), f);
      ConsistentReflexive(s, reg);
      ConsistentReflexive(u, reg);
      BlursSelf(s);
      BlursSelf(u);
      BlurConsistent(s, s, t, s, reg);
      BlurConsistent(t, u, u, u, reg);
      NoWayIn(s, u, f, reg);
    }
  }

  // An arrow's parameters flow the way its result does.
  lemma ArrowFlows(s: Type, t: Type, q: Type, r: Type, reg: Registry)
    requires reg.Acyclic()
    ensures Consistent(Arrow([s], q), Arrow([t], r), reg) <==> Consistent(s, t, reg) && Consistent(q, r, reg)
  {
    assert [s][0] == s && [t][0] == t;
  }

  // Whether an arrow taking a flows where one taking b is expected.
  predicate ParameterFlows(a: string, b: string, r: Type, reg: Registry)
    requires reg.Acyclic()
  {
    Consistent(Arrow([Object(a)], r), Arrow([Object(b)], r), reg)
  }

  // So an arrow from a subtype flows where one from its supertype is expected, and not back: object
  // parameters are invariant exactly when no supertype is declared.
  lemma ParametersInvariantExact(r: Type, reg: Registry)
    requires reg.Acyclic()
    ensures (forall a, b :: ParameterFlows(a, b, r, reg) ==> ParameterFlows(b, a, r, reg))
      <==> forall n :: n in reg.supers ==> reg.supers[n] == []
  {
    ConsistentReflexive(r, reg);
    forall a, b ensures ParameterFlows(a, b, r, reg) <==> reg.SubtypeOf(a, b) {
      ArrowFlows(Object(a), Object(b), r, r, reg);
    }
    if n :| n in reg.supers && reg.supers[n] != [] {
      var m := reg.supers[n][0];
      assert reg.RankOf(m) < reg.RankOf(n) && reg.SubtypeOf(n, m);
      if reg.SubtypeOf(m, n) { SubtypeRank(m, n, reg); }
      assert ParameterFlows(n, m, r, reg) && !ParameterFlows(m, n, r, reg);
    } else {
      forall a, b | reg.SubtypeOf(a, b) ensures a == b { }
    }
  }

  lemma {:induction false} SubtypeRank(sub: string, sup: string, reg: Registry)
    requires reg.Acyclic() && reg.SubtypeOf(sub, sup)
    ensures reg.RankOf(sup) <= reg.RankOf(sub)
    decreases reg.RankOf(sub)
  {
    if sub != sup {
      var i :| 0 <= i < |reg.supers[sub]| && reg.SubtypeOf(reg.supers[sub][i], sup);
      SubtypeRank(reg.supers[sub][i], sup, reg);
    }
  }

  // Through any the relation does not compose: that is what keeps any a waypoint.
  lemma AnyDoesNotCompose(reg: Registry)
    requires reg.Acyclic()
    ensures Consistent(Scalar(KInt), Any, reg) && Consistent(Any, Scalar(KString), reg)
    ensures !Consistent(Scalar(KInt), Scalar(KString), reg)
  {
  }
}
