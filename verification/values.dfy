/** Runtime values of the template engine, and the pure operations both engines share.

    Values are immutable here.  An array is the engine's insertion-ordered map from key
    spellings to values: integer keys are stored under their decimal spelling, so one key
    space of strings serves lists and mappings alike. */
module Values {

  datatype Option<+T> = None | Some(value: T)
  {
    function GetOr(default: T): T {
      if Some? then value else default
    }
  }

  datatype Result<+T> = Ok(value: T) | Err(error: Error)

  datatype Error =
    | UndefinedName(name: string, available: seq<string>)
    | UndefinedKey(key: string)
    | NoMember(key: string)
    | NotIterable
    | Unrenderable
    | BadOperand
    | Overflow
    | CompilerPanic  // an internal lowering failure; no reachable program raises it

  // Ref denotes the live loop object in a cell of the interpreter's heap; the engines compared
  // without a heap never produce one.
  datatype Value =
    | Null
    | Bool(b: bool)
    | Int(i: int)
    | Str(s: string)
    | Arr(entries: seq<(string, Value)>)
    | Loop(index0: nat, pairs: seq<(string, Value)>, parent: Value)
    | Ref(cell: nat)

  // ----- arrays -----

  // The value under key k.  Keys of an array are distinct, so the scan direction is immaterial.
  function Lookup(entries: seq<(string, Value)>, k: string): Option<Value> {
    if entries == [] then None
    else if entries[|entries| - 1].0 == k then Some(entries[|entries| - 1].1)
    else Lookup(entries[..|entries| - 1], k)
  }

  // Overwrites k in place at its original position, or appends it.
  function Put(entries: seq<(string, Value)>, k: string, v: Value): seq<(string, Value)> {
    if Lookup(entries, k).None? then entries + [(k, v)] else Overwrite(entries, k, v)
  }

  function Overwrite(entries: seq<(string, Value)>, k: string, v: Value): seq<(string, Value)> {
    if entries == [] then []
    else
      var init, last := entries[..|entries| - 1], entries[|entries| - 1];
      if last.0 == k then init + [(k, v)] else Overwrite(init, k, v) + [last]
  }

  function Keys(entries: seq<(string, Value)>): seq<string> {
    seq(|entries|, i requires 0 <= i < |entries| => entries[i].0)
  }

  // First-seen insertion of one name, and of a run of names.
  function AddName(names: seq<string>, x: string): seq<string> {
    if x in names then names else names + [x]
  }

  function AddNames(names: seq<string>, more: seq<string>): seq<string> {
    if more == [] then names
    else AddName(AddNames(names, more[..|more| - 1]), more[|more| - 1])
  }

  // ----- coercions -----

  function Truthy(v: Value): bool {
    match v
    case Null => false
    case Bool(b) => b
    case Int(i) => i != 0
    case Str(s) => s != ""
    case Arr(es) => es != []
    case Loop(_, _, _) => true
    case Ref(_) => true
  }

  function Digits(n: nat): string {
    if n < 10 then ["0123456789"[n]] else Digits(n / 10) + ["0123456789"[n % 10]]
  }

  function IntText(n: int): string {
    if n < 0 then "-" + Digits(-n) else Digits(n)
  }

  function ToText(v: Value): Result<string> {
    match v
    case Null => Ok("")
    case Bool(b) => Ok(if b then "true" else "false")
    case Int(i) => Ok(IntText(i))
    case Str(s) => Ok(s)
    case Arr(_) => Err(Unrenderable)
    case Loop(_, _, _) => Err(Unrenderable)
    case Ref(_) => Err(Unrenderable)
  }

  // The key of an entry as a value: canonical decimal spellings of int64 are integers.
  predicate CanonicalInt(k: string) {
    && k != ""
    && var d := if k[0] == '-' then k[1..] else k;
       && d != ""
       && (forall c | c in d :: '0' <= c <= '9')
       && (if d[0] == '0' then k == "0" else true)
  }

  function ParseDigits(d: string): nat {
    if d == "" then 0
    else ParseDigits(d[..|d| - 1]) * 10 + (if '0' <= d[|d| - 1] <= '9' then d[|d| - 1] as nat - '0' as nat else 0)
  }

  function KeyValue(k: string): Value {
    if CanonicalInt(k) then
      var n: int := if k[0] == '-' then -(ParseDigits(k[1..]) as int) else ParseDigits(k) as int;
      if -0x8000_0000_0000_0000 <= n < 0x8000_0000_0000_0000 then Int(n) else Str(k)
    else Str(k)
  }

  // The entries a for loop iterates, or the iteration error.
  function Traverse(v: Value, lenient: bool): Result<seq<(string, Value)>> {
    if v.Arr? then Ok(v.entries)
    else if lenient then Ok([])
    else Err(NotIterable)
  }

  // ----- loop metadata -----

  // A field of the loop value of iteration i over pairs.
  function LoopField(i: nat, pairs: seq<(string, Value)>, parent: Value, field: string): Option<Value> {
    match field
    case "index0" => Some(Int(i))
    case "index" => Some(Int(i + 1))
    case "revindex0" => Some(Int(|pairs| - 1 - i))
    case "revindex" => Some(Int(|pairs| - i))
    case "first" => Some(Bool(i == 0))
    case "last" => Some(Bool(i == |pairs| - 1))
    case "length" => Some(Int(|pairs|))
    case "prev" => Some(if 0 < i <= |pairs| then pairs[i - 1].1 else Null)
    case "next" => Some(if i + 1 < |pairs| then pairs[i + 1].1 else Null)
    case "parent" => Some(parent)
    case _ => None
  }

  // ----- member access -----

  function GetDot(recv: Value, name: string, absent: bool): Result<Value> {
    match recv
    case Arr(es) =>
      (match Lookup(es, name)
       case Some(v) => Ok(v)
       case None => if absent then Ok(Null) else Err(UndefinedKey(name)))
    case Loop(i, ps, par) =>
      (match LoopField(i, ps, par, name)
       case Some(v) => Ok(v)
       case None => if absent then Ok(Null) else Err(UndefinedKey(name)))
    case _ => Err(NoMember(name))
  }

  // ----- operators -----

  datatype BinOp = Concat | Plus | Less

  function Binary(op: BinOp, a: Value, b: Value): Result<Value> {
    match op
    case Concat =>
      if ToText(a).Err? then Err(ToText(a).error)
      else if ToText(b).Err? then Err(ToText(b).error)
      else Ok(Str(ToText(a).value + ToText(b).value))
    case Plus =>
      if a.Int? && b.Int? then
        (if -0x8000_0000_0000_0000 <= a.i + b.i < 0x8000_0000_0000_0000 then Ok(Int(a.i + b.i)) else Err(Overflow))
      else Err(BadOperand)
    case Less =>
      if a.Int? && b.Int? then Ok(Bool(a.i < b.i)) else Err(BadOperand)
  }

  // The map value a with-construct binds from, as entries: anything but an array binds nothing.
  function WithEntries(m: Value): seq<(string, Value)> {
    if m.Arr? then m.entries else []
  }
}
