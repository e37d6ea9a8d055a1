/** The target of the lowering: structured code over Go-like locals.

    Each prescanned name of a compile-time frame is one value local and one bound flag; a frame
    also owns a slice recording its names in first-bind order.  Temporaries are single numbered
    locals. */
module Target {
  import opened Values

  // The locals of one frame.
  datatype Locals = Locals(vals: map<string, Value>, flags: set<string>, ord: seq<string>)

  datatype State = State(tmps: map<nat, Value>, frames: map<nat, Locals>, qNames: seq<string>, out: string)

  // A Go expression over the locals, free of effects and errors.
  datatype GExpr =
    | GConst(v: Value)
    | GTmp(t: nat)
    | GVar(x: string, fid: nat)
    | GNot(a: GExpr)
    | GTruth(a: GExpr)
    | GXor(a: GExpr, b: GExpr)
    | GKey(p: nat, i: nat)
    | GElem(p: nat, i: nat, delta: int)
    | GNewLoop(i: nat, p: nat, par: nat)
    | GField(i: nat, p: nat, field: string)
    | GWithAt(m: GExpr, x: string)
    | GVarsAt(x: string)

  datatype Cond =
    | CTruthy(g: GExpr)
    | CFalsy(g: GExpr)
    | CNull(g: GExpr)
    | CNotNull(g: GExpr)
    | CFlag(x: string, fid: nat)
    | CNoFlag(x: string, fid: nat)
    | CWithHas(g: GExpr, x: string)
    | CInVars(x: string)
    | CNotInVars(x: string)
    | CEmpty(p: nat)
    | CHasPrev(i: nat)
    | CHasNext(i: nat, p: nat)
    | CAnd(a: Cond, b: Cond)

  // One contribution to the available-names hint.
  datatype Hint = HRoot | HWith(g: GExpr) | HOrd(fid: nat)

  // How a scope enumeration reads the loop entry of a frame: from its local, or on demand.
  datatype LoopSlot = FromLocal | OnDemand(i: nat, p: nat, par: nat)

  datatype Instr =
    | SetTmp(t: nat, g: GExpr)
    | SetVar(x: string, fid: nat, g: GExpr)
    | SetFlag(x: string, fid: nat)
    | Declare(fid: nat)
    | AddOrd(x: string, fid: nat)
    | AddQName(x: string)
    | Branch(c: Cond, thn: seq<Instr>, els: seq<Instr>)
    | Range(i: nat, p: nat, body: seq<Instr>)
    | CallBin(t: nat, op: BinOp, a: GExpr, b: GExpr)
    | CallDot(t: nat, recv: GExpr, field: string, absent: bool)
    | CallTraverse(t: nat, g: GExpr, lenient: bool)
    | PutKey(t: nat, key: string, g: GExpr)
    | AppendPair(t: nat, p: nat, i: nat)
    | Write(g: GExpr)
    | WriteText(s: string)
    | CaptureInto(t: nat, body: seq<Instr>)
    | Raise(x: string, hint: seq<Hint>)
    | CtxRoot(t: nat, fid: nat, order: seq<string>, definite: set<string>)
    | CtxWith(t: nat, m: GExpr)
    | CtxOrd(t: nat, fid: nat, order: seq<string>, slot: LoopSlot)
    | Panic

  type Code = seq<Instr>

  datatype RunR = ROk(s: State) | RFail(error: Error, partial: string)

  // ----- reading the locals -----

  function Tmp(s: State, t: nat): Value {
    if t in s.tmps then s.tmps[t] else Null
  }

  function LocalsOf(s: State, fid: nat): Locals {
    if fid in s.frames then s.frames[fid] else Locals(map[], {}, [])
  }

  function VarVal(s: State, x: string, fid: nat): Value {
    var l := LocalsOf(s, fid);
    if x in l.vals then l.vals[x] else Null
  }

  function PairsAt(s: State, p: nat): seq<(string, Value)> {
    WithEntries(Tmp(s, p))
  }

  function CounterAt(s: State, i: nat): nat {
    if Tmp(s, i).Int? && Tmp(s, i).i >= 0 then Tmp(s, i).i else 0
  }

  function VarsAt(vars: map<string, Value>, x: string): Value {
    if x in vars then vars[x] else Null
  }

  // The arithmetic emitted for a loop field, over the counter and the number of pairs.
  function CounterField(i: nat, n: nat, field: string): Value {
    match field
    case "index" => Int(i + 1)
    case "index0" => Int(i)
    case "revindex" => Int(n - i)
    case "revindex0" => Int(n - 1 - i)
    case "length" => Int(n)
    case "first" => Bool(i == 0)
    case "last" => Bool(i == n - 1)
    case _ => Null
  }

  function GVal(g: GExpr, s: State, vars: map<string, Value>): Value {
    match g
    case GConst(v) => v
    case GTmp(t) => Tmp(s, t)
    case GVar(x, fid) => VarVal(s, x, fid)
    case GNot(a) => Bool(!Truthy(GVal(a, s, vars)))
    case GTruth(a) => Bool(Truthy(GVal(a, s, vars)))
    case GXor(a, b) => Bool(Truthy(GVal(a, s, vars)) != Truthy(GVal(b, s, vars)))
    case GKey(p, i) =>
      var ps, k := PairsAt(s, p), CounterAt(s, i);
      if k < |ps| then KeyValue(ps[k].0) else Null
    case GElem(p, i, d) =>
      var ps, k := PairsAt(s, p), CounterAt(s, i) + d;
      if 0 <= k < |ps| then ps[k].1 else Null
    case GNewLoop(i, p, par) => Loop(CounterAt(s, i), PairsAt(s, p), Tmp(s, par))
    case GField(i, p, f) => CounterField(CounterAt(s, i), |PairsAt(s, p)|, f)
    case GWithAt(m, x) => Lookup(WithEntries(GVal(m, s, vars)), x).GetOr(Null)
    case GVarsAt(x) => VarsAt(vars, x)
  }

  predicate CVal(c: Cond, s: State, vars: map<string, Value>) {
    match c
    case CTruthy(g) => Truthy(GVal(g, s, vars))
    case CFalsy(g) => !Truthy(GVal(g, s, vars))
    case CNull(g) => GVal(g, s, vars).Null?
    case CNotNull(g) => !GVal(g, s, vars).Null?
    case CFlag(x, fid) => x in LocalsOf(s, fid).flags
    case CNoFlag(x, fid) => x !in LocalsOf(s, fid).flags
    case CWithHas(g, x) => Lookup(WithEntries(GVal(g, s, vars)), x).Some?
    case CInVars(x) => x in vars
    case CNotInVars(x) => x !in vars
    case CEmpty(p) => PairsAt(s, p) == []
    case CHasPrev(i) => CounterAt(s, i) > 0
    case CHasNext(i, p) => CounterAt(s, i) < |PairsAt(s, p)| - 1
    case CAnd(a, b) => CVal(a, s, vars) && CVal(b, s, vars)
  }

  // ----- updating the locals -----

  function PutTmp(s: State, t: nat, v: Value): State {
    s.(tmps := s.tmps[t := v])
  }

  function PutLocals(s: State, fid: nat, l: Locals): State {
    s.(frames := s.frames[fid := l])
  }

  // ----- name hints and scope enumeration -----

  function HintNames(hs: seq<Hint>, s: State, vars: map<string, Value>): seq<string> {
    if hs == [] then [] else AddHint(HintNames(hs[..|hs| - 1], s, vars), hs[|hs| - 1], s, vars)
  }

  function AddHint(names: seq<string>, h: Hint, s: State, vars: map<string, Value>): seq<string> {
    match h
    case HRoot => s.qNames
    case HWith(g) => AddNames(names, Keys(WithEntries(GVal(g, s, vars))))
    case HOrd(fid) => AddNames(names, LocalsOf(s, fid).ord)
  }

  function PutEntries(acc: seq<(string, Value)>, es: seq<(string, Value)>): seq<(string, Value)> {
    if es == [] then acc
    else Put(PutEntries(acc, es[..|es| - 1]), es[|es| - 1].0, es[|es| - 1].1)
  }

  function RootEntries(acc: seq<(string, Value)>, names: seq<string>, fid: nat, order: seq<string>,
                       definite: set<string>, s: State, vars: map<string, Value>): seq<(string, Value)> {
    if names == [] then acc
    else
      var x := names[|names| - 1];
      Put(RootEntries(acc, names[..|names| - 1], fid, order, definite, s, vars), x,
          if x in order && (x in definite || x in LocalsOf(s, fid).flags) then VarVal(s, x, fid) else VarsAt(vars, x))
  }

  function SlotVal(x: string, fid: nat, slot: LoopSlot, s: State): Value {
    if x == "loop" && slot.OnDemand? then Loop(CounterAt(s, slot.i), PairsAt(s, slot.p), Tmp(s, slot.par))
    else VarVal(s, x, fid)
  }

  function OrdEntries(acc: seq<(string, Value)>, names: seq<string>, fid: nat, order: seq<string>,
                      slot: LoopSlot, s: State): seq<(string, Value)> {
    if names == [] then acc
    else
      var x := names[|names| - 1];
      var r := OrdEntries(acc, names[..|names| - 1], fid, order, slot, s);
      if x in order then Put(r, x, SlotVal(x, fid, slot, s)) else r
  }

  // ----- execution -----

  function Run(code: Code, s: State, vars: map<string, Value>): RunR
    decreases code, 0
  {
    if code == [] then ROk(s)
    else
      match Step(code[0], s, vars)
      case RFail(e, o) => RFail(e, o)
      case ROk(s1) => Run(code[1..], s1, vars)
  }

  function Step(c: Instr, s: State, vars: map<string, Value>): RunR
    decreases c, 1
  {
    match c
    case SetTmp(t, g) => ROk(PutTmp(s, t, GVal(g, s, vars)))
    case SetVar(x, fid, g) =>
      var l := LocalsOf(s, fid);
      ROk(PutLocals(s, fid, l.(vals := l.vals[x := GVal(g, s, vars)])))
    case SetFlag(x, fid) =>
      var l := LocalsOf(s, fid);
      ROk(PutLocals(s, fid, l.(flags := l.flags + {x})))
    case Declare(fid) => ROk(PutLocals(s, fid, Locals(map[], {}, [])))
    case AddOrd(x, fid) =>
      var l := LocalsOf(s, fid);
      ROk(PutLocals(s, fid, l.(ord := l.ord + [x])))
    case AddQName(x) => ROk(s.(qNames := s.qNames + [x]))
    case Branch(c, thn, els) => if CVal(c, s, vars) then Run(thn, s, vars) else Run(els, s, vars)
    case Range(i, p, body) => RunRange(i, p, body, |PairsAt(s, p)|, 0, s, vars)
    case CallBin(t, op, a, b) =>
      (match Binary(op, GVal(a, s, vars), GVal(b, s, vars))
       case Ok(v) => ROk(PutTmp(s, t, v))
       case Err(e) => RFail(e, s.out))
    case CallDot(t, recv, field, absent) =>
      (match GetDot(GVal(recv, s, vars), field, absent)
       case Ok(v) => ROk(PutTmp(s, t, v))
       case Err(e) => RFail(e, s.out))
    case CallTraverse(t, g, lenient) =>
      (match Traverse(GVal(g, s, vars), lenient)
       case Ok(ps) => ROk(PutTmp(s, t, Arr(ps)))
       case Err(e) => RFail(e, s.out))
    case PutKey(t, key, g) => ROk(PutTmp(s, t, Arr(Put(PairsAt(s, t), key, GVal(g, s, vars)))))
    case AppendPair(t, p, i) =>
      var ps, k := PairsAt(s, p), CounterAt(s, i);
      ROk(PutTmp(s, t, Arr(PairsAt(s, t) + (if k < |ps| then [ps[k]] else []))))
    case Write(g) =>
      (match ToText(GVal(g, s, vars))
       case Ok(t) => ROk(s.(out := s.out + t))
       case Err(e) => RFail(e, s.out))
    case WriteText(t) => ROk(s.(out := s.out + t))
    case CaptureInto(t, body) =>
      (match Run(body, s.(out := ""), vars)
       case RFail(e, _) => RFail(e, s.out)
       case ROk(s1) => ROk(PutTmp(s1, t, Str(s1.out)).(out := s.out)))
    case Raise(x, hint) => RFail(UndefinedName(x, HintNames(hint, s, vars)), s.out)
    case CtxRoot(t, fid, order, definite) =>
      ROk(PutTmp(s, t, Arr(RootEntries(PairsAt(s, t), s.qNames, fid, order, definite, s, vars))))
    case CtxWith(t, m) => ROk(PutTmp(s, t, Arr(PutEntries(PairsAt(s, t), WithEntries(GVal(m, s, vars))))))
    case CtxOrd(t, fid, order, slot) =>
      ROk(PutTmp(s, t, Arr(OrdEntries(PairsAt(s, t), LocalsOf(s, fid).ord, fid, order, slot, s))))
    case Panic => RFail(CompilerPanic, s.out)
  }

  // for i := k; i < n; i++ { body }
  function RunRange(i: nat, p: nat, body: Code, n: nat, k: nat, s: State, vars: map<string, Value>): RunR
    requires k <= n
    decreases body, 1, n - k
  {
    if k == n then ROk(s)
    else
      match Run(body, PutTmp(s, i, Int(k)), vars)
      case RFail(e, o) => RFail(e, o)
      case ROk(s1) => RunRange(i, p, body, n, k + 1, s1, vars)
  }

  // Running more code after a result.
  function Then(r: RunR, code: Code, vars: map<string, Value>): RunR {
    if r.ROk? then Run(code, r.s, vars) else r
  }

  // Code runs as the sequence of its parts.
  lemma {:induction false} RunAppend(a: Code, b: Code, s: State, vars: map<string, Value>)
    ensures Run(a + b, s, vars) == Then(Run(a, s, vars), b, vars)
    decreases a
  {
    if a == [] {
      assert a + b == b;
    } else {
      assert (a + b)[0] == a[0] && (a + b)[1..] == a[1..] + b;
      match Step(a[0], s, vars) {
        case ROk(s1) => RunAppend(a[1..], b, s1, vars);
        case RFail(_, _) =>
      }
    }
  }

  lemma RunOne(c: Instr, s: State, vars: map<string, Value>)
    ensures Run([c], s, vars) == Step(c, s, vars)
  {
    match Step(c, s, vars) {
      case ROk(s1) => assert Run([], s1, vars) == ROk(s1);
      case RFail(_, _) =>
    }
  }
}
