/** What the coercions and operators that both engines share mean, said without them. */
module Coercions {
  import opened Values
  import opened CheckedInt
  import opened Syntax
  import opened Scopes
  import I = Interp

  // ----- truth -----

  // The five falsy shapes.
  lemma FalsyExactly(v: Value)
    ensures !Truthy(v) <==> v in {Null, Bool(false), Int(0), Str(""), Arr([])}
  {
  }

  // A conditional takes its first body exactly on values of no falsy shape, and its else otherwise.
  lemma ConditionalTakes(v: Value, body: seq<Stmt>, els: seq<Stmt>, sc: Scope, out: string, lenient: bool)
    requires sc.Scope?
    ensures I.ExecIf([When(Lit(v), body), Otherwise(els)], sc, out, lenient)
         == I.ExecList(if v in {Null, Bool(false), Int(0), Str(""), Arr([])} then els else body, sc, out, lenient)
  {
    assert [When(Lit(v), body), Otherwise(els)][1..] == [Otherwise(els)];
  }

  // ----- decimal spellings -----

  predicate Digital(d: string) { forall i :: 0 <= i < |d| ==> '0' <= d[i] <= '9' }

  // A decimal numeral without a leading zero, most significant digit first.
  predicate Numeral(d: string) { d != "" && Digital(d) && (|d| > 1 ==> d[0] != '0') }

  function Weight(k: nat): nat { if k == 0 then 1 else 10 * Weight(k - 1) }

  // The value of a numeral by the weights of its places.
  function Places(d: string): nat {
    if d == "" || !('0' <= d[0] <= '9') then 0 else (d[0] as nat - '0' as nat) * Weight(|d| - 1) + Places(d[1..])
  }

  lemma Shifted(x: nat, w: nat)
    ensures x * (10 * w) == 10 * (x * w)
  {
  }

  lemma DigitTimes(x: nat, w: nat)
    requires x <= 9
    ensures x * w <= 9 * w && (x >= 1 ==> w <= x * w)
  {
  }

  lemma {:induction false} PlacesLast(d: string, c: char)
    requires Digital(d) && '0' <= c <= '9'
    ensures Places(d + [c]) == 10 * Places(d) + (c as nat - '0' as nat)
  {
    if d == "" {
      assert d + [c] == [c] && [c][1..] == "" && Weight(0) == 1;
    } else {
      assert (d + [c])[1..] == d[1..] + [c];
      PlacesLast(d[1..], c);
      Shifted(d[0] as nat - '0' as nat, Weight(|d| - 1));
    }
  }

  // The digits of a number are its numeral.
  lemma {:induction false} DigitsNumeral(n: nat)
    ensures Numeral(Digits(n)) && Places(Digits(n)) == n && (n > 0 ==> Digits(n)[0] != '0')
  {
    var table := "0123456789";
    forall k: nat | k < 10 ensures table[k] as nat == '0' as nat + k { }
    if n < 10 {
      assert Places([table[n]]) == n by { assert [table[n]][1..] == "" && Weight(0) == 1; }
    } else {
      DigitsNumeral(n / 10);
      PlacesLast(Digits(n / 10), table[n % 10]);
      assert Digits(n)[0] == Digits(n / 10)[0];
    }
  }

  lemma {:induction false} ParsePlaces(d: string)
    requires Digital(d)
    ensures ParseDigits(d) == Places(d)
    decreases |d|
  {
    if d != "" {
      ParsePlaces(d[..|d| - 1]);
      PlacesLast(d[..|d| - 1], d[|d| - 1]);
      assert d[..|d| - 1] + [d[|d| - 1]] == d;
    }
  }

  lemma {:induction false} PlacesBound(d: string)
    requires d != "" && Digital(d)
    ensures Places(d) < Weight(|d|) && (d[0] != '0' ==> Weight(|d| - 1) <= Places(d))
    decreases |d|
  {
    DigitTimes(d[0] as nat - '0' as nat, Weight(|d| - 1));
    if |d| > 1 { PlacesBound(d[1..]); } else { assert d[1..] == ""; }
  }

  // A number has one numeral.
  lemma {:induction false} NumeralUnique(d: string)
    requires Numeral(d)
    ensures Digits(Places(d)) == d
    decreases |d|
  {
    var last := d[|d| - 1];
    assert d[..|d| - 1] + [last] == d;
    if |d| == 1 {
      assert d == [d[0]] && d[1..] == "" && Weight(0) == 1;
      assert Places(d) == d[0] as nat - '0' as nat;
      assert "0123456789"[Places(d)] as nat == '0' as nat + Places(d);
    } else {
      var init := d[..|d| - 1];
      assert init[0] == d[0] != '0';
      PlacesLast(init, last);
      PlacesBound(init);
      WeightPositive(|init| - 1);
      NumeralUnique(init);
      assert Places(d) / 10 == Places(init) && Places(d) % 10 == last as nat - '0' as nat;
      assert "0123456789"[Places(d) % 10] == last;
    }
  }

  lemma {:induction false} WeightPositive(k: nat)
    ensures Weight(k) >= 1
  {
    if k > 0 { WeightPositive(k - 1); }
  }

  // A numeral, signed when it is negative.
  predicate Spells(k: string, n: int) {
    if n < 0 then |k| > 1 && k[0] == '-' && Numeral(k[1..]) && Places(k[1..]) == -n else Numeral(k) && Places(k) == n
  }

  // An integer's text spells it, and it alone does.
  lemma IntTextSpells(k: string, n: int)
    ensures k == IntText(n) <==> Spells(k, n)
  {
    if n < 0 {
      DigitsNumeral(-n);
      assert ("-" + Digits(-n))[1..] == Digits(-n);
      if Spells(k, n) { NumeralUnique(k[1..]); assert k == "-" + k[1..]; }
    } else {
      DigitsNumeral(n);
      if Spells(k, n) { NumeralUnique(k); }
    }
  }

  // The text of a value.
  lemma TextIs(v: Value, t: string)
    ensures ToText(v) == Ok(t) <==>
      || (v == Null && t == "") || (v == Bool(true) && t == "true") || (v == Bool(false) && t == "false")
      || (v.Int? && Spells(t, v.i)) || v == Str(t)
  {
    if v.Int? { IntTextSpells(t, v.i); }
  }

  // The value a canonical key spells.
  function KeyNumber(k: string): int
    requires k != ""
  {
    if k[0] == '-' then -(ParseDigits(k[1..]) as int) else ParseDigits(k) as int
  }

  lemma CanonicalSpells(k: string)
    requires CanonicalInt(k)
    ensures k == IntText(KeyNumber(k))
  {
    var d := if k[0] == '-' then k[1..] else k;
    ParsePlaces(d);
    if k[0] == '-' {
      assert d[0] != '0';
      PlacesBound(d);
      WeightPositive(|d| - 1);
    }
    IntTextSpells(k, KeyNumber(k));
  }

  lemma TextCanonical(n: int)
    ensures CanonicalInt(IntText(n)) && KeyNumber(IntText(n)) == n
  {
    var d, k := Digits(if n < 0 then -n else n), IntText(n);
    DigitsNumeral(if n < 0 then -n else n);
    ParsePlaces(d);
    if n < 0 { assert k[1..] == d; }
    assert '0' <= d[0] <= '9';
    if |d| == 1 && d[0] == '0' { assert d == "0"; }
  }

  // A key is an integer exactly when it is the text of one in range, and a string otherwise.
  lemma KeyIs(k: string, n: int)
    ensures KeyValue(k) == Int(n) <==> k == IntText(n) && MIN_INT64 <= n <= MAX_INT64
    ensures KeyValue(k).Int? || KeyValue(k) == Str(k)
  {
    if CanonicalInt(k) { CanonicalSpells(k); }
    if k == IntText(n) { TextCanonical(n); }
  }

  // ----- operators -----

  // Addition is the checked sum, concatenation the texts in order, comparison that of the integers.
  lemma PlusIs(a: int64, b: int64)
    ensures AddInt64(a, b).Some? ==> Binary(Plus, Int(a as int), Int(b as int)) == Ok(Int(AddInt64(a, b).value as int))
    ensures AddInt64(a, b).None? ==> Binary(Plus, Int(a as int), Int(b as int)) == Err(Overflow)
  {
    AddExact(a, b);
  }

  lemma ConcatIs(a: Value, b: Value, t: string)
    ensures Binary(Concat, a, b) == Ok(Str(t))
      <==> exists x, y :: ToText(a) == Ok(x) && ToText(b) == Ok(y) && t == x + y
  {
    if Binary(Concat, a, b) == Ok(Str(t)) {
      assert ToText(a) == Ok(ToText(a).value) && ToText(b) == Ok(ToText(b).value);
    }
  }

  lemma LessIs(a: Value, b: Value, r: bool)
    ensures Binary(Less, a, b) == Ok(Bool(r)) <==> a.Int? && b.Int? && (r <==> b.i - a.i > 0)
  {
  }

  // ----- arrays -----

  // What a loop iterates: an array's entries in order, anything else nothing or an error.
  lemma TraverseIs(v: Value, ps: seq<(string, Value)>, lenient: bool)
    ensures Traverse(v, lenient) == Ok(ps) <==> v == Arr(ps) || (!v.Arr? && lenient && ps == [])
    ensures Traverse(v, lenient).Err? <==> !v.Arr? && !lenient
  {
  }

  // A member of an array is the value of the one entry with that key.
  lemma {:induction false} LookupIs(es: seq<(string, Value)>, k: string, v: Value)
    requires forall i, j :: 0 <= i < j < |es| ==> es[i].0 != es[j].0
    ensures Lookup(es, k) == Some(v) <==> (k, v) in es
    ensures Lookup(es, k).None? <==> forall i :: 0 <= i < |es| ==> es[i].0 != k
  {
    if es != [] {
      var init, last := es[..|es| - 1], es[|es| - 1];
      LookupIs(init, k, v);
      assert es == init + [last];
      assert (k, v) in es <==> (k, v) in init || (k, v) == last;
      if last.0 == k { forall i | 0 <= i < |init| ensures init[i].0 != k { assert es[i].0 != es[|es| - 1].0; } }
    }
  }

  lemma MemberIs(es: seq<(string, Value)>, k: string, v: Value)
    requires forall i, j :: 0 <= i < j < |es| ==> es[i].0 != es[j].0
    ensures GetDot(Arr(es), k, false) == Ok(v) <==> (k, v) in es
    ensures GetDot(Arr(es), k, true) == Ok(v)
      <==> (k, v) in es || (v == Null && forall i :: 0 <= i < |es| ==> es[i].0 != k)
  {
    LookupIs(es, k, v);
  }

  // ----- lists of names -----

  // The first of a name's places.
  function FirstAt(names: seq<string>, x: string): nat
    ensures x in names ==> FirstAt(names, x) < |names| && names[FirstAt(names, x)] == x
  {
    if names == [] || names[0] == x then 0 else 1 + FirstAt(names[1..], x)
  }

  lemma {:induction false} FirstAtInit(names: seq<string>, last: string, x: string)
    ensures FirstAt(names + [last], x)
         == if x in names then FirstAt(names, x) else if x == last then |names| else |names| + 1
  {
    if names != [] {
      assert (names + [last])[1..] == names[1..] + [last];
      FirstAtInit(names[1..], last, x);
    } else {
      assert [last][1..] == [];
    }
  }

  // Names listed by insertion: each once, in the order of first appearance.
  lemma {:induction false} InsertionOrder(names: seq<string>)
    ensures var r := AddNames([], names);
      && (forall x :: x in r <==> x in names)
      && (forall i, j :: 0 <= i < j < |r| ==> FirstAt(names, r[i]) < FirstAt(names, r[j]))
  {
    if names != [] {
      var init, last := names[..|names| - 1], names[|names| - 1];
      InsertionOrder(init);
      assert names == init + [last];
      var r := AddNames([], names);
      forall x
        ensures FirstAt(names, x) == if x in init then FirstAt(init, x) else if x == last then |init| else |init| + 1
      {
        FirstAtInit(init, last, x);
      }
    }
  }

  // ----- what the engines read through -----

  // Only arrays and loop values have members; null has none but where it is asked for safely.
  lemma NoMembers(v: Value, name: string, absent: bool)
    ensures !v.Arr? && !v.Loop? ==> GetDot(v, name, absent) == Err(NoMember(name))
    ensures I.AttrOf(Null, name, true, absent) == Ok(Null) && I.AttrOf(Null, name, false, true) == Ok(Null)
    ensures I.AttrOf(Null, name, false, false) == Err(NoMember(name))
  {
  }

  // What a with-construct binds: an array's entries, and nothing from any other value.
  lemma WithIs(v: Value, es: seq<(string, Value)>)
    ensures WithEntries(v) == es <==> v == Arr(es) || (!v.Arr? && es == [])
  {
  }

  // Storing a key keeps its place or appends it, and every other entry.
  lemma {:induction false} PutIs(es: seq<(string, Value)>, k: string, v: Value)
    requires forall i, j :: 0 <= i < j < |es| ==> es[i].0 != es[j].0
    ensures var r := Put(es, k, v);
      && (forall i :: 0 <= i < |es| ==> |r| >= |es| && r[i] == if es[i].0 == k then (k, v) else es[i])
      && (if exists i :: 0 <= i < |es| && es[i].0 == k then |r| == |es| else r == es + [(k, v)])
    decreases |es|
  {
    LookupIs(es, k, v);
    if Lookup(es, k).Some? { OverwriteIs(es, k, v); }
  }

  lemma {:induction false} OverwriteIs(es: seq<(string, Value)>, k: string, v: Value)
    requires forall i, j :: 0 <= i < j < |es| ==> es[i].0 != es[j].0
    ensures var r := Overwrite(es, k, v);
      |r| == |es| && forall i :: 0 <= i < |es| ==> r[i] == if es[i].0 == k then (k, v) else es[i]
    decreases |es|
  {
    if es != [] {
      var init, last := es[..|es| - 1], es[|es| - 1];
      assert es == init + [last];
      if last.0 == k {
        forall i | 0 <= i < |init| ensures es[i].0 != k { assert es[i].0 != es[|es| - 1].0; }
      } else {
        OverwriteIs(init, k, v);
      }
    }
  }
}
