/** Checked signed 64-bit arithmetic: every operation reports overflow exactly when the true result
    is not representable, and otherwise returns the true result. */
module CheckedInt {
  import opened Values

  const MIN_INT64: int := -0x8000_0000_0000_0000
  const MAX_INT64: int := 0x7FFF_FFFF_FFFF_FFFF

  type int64 = x: int | -0x8000_0000_0000_0000 <= x <= 0x7FFF_FFFF_FFFF_FFFF

  predicate InRange(x: int) { MIN_INT64 <= x <= MAX_INT64 }

  // The machine's wrap-around of a true result.
  function Wrap(x: int): int64 {
    WrapRange(x);
    (x - MIN_INT64) % 0x1_0000_0000_0000_0000 + MIN_INT64
  }

  lemma WrapRange(x: int)
    ensures InRange((x - MIN_INT64) % 0x1_0000_0000_0000_0000 + MIN_INT64)
  {
  }

  // Wrapping moves a result by whole multiples of the word size, none when it fits.
  lemma WrapShift(x: int) returns (k: int)
    ensures x - Wrap(x) == k * 0x1_0000_0000_0000_0000 && (InRange(x) <==> k == 0)
  {
    WrapRange(x);
    k := (x - MIN_INT64) / 0x1_0000_0000_0000_0000;
  }

  // The machine's quotient truncates toward zero.
  function TruncDiv(a: int, b: int): int
    requires b != 0
  {
    if a >= 0 then a / b else -((-a) / b)
  }

  function TruncMod(a: int, b: int): int
    requires b != 0
  {
    a - TruncDiv(a, b) * b
  }

  // The true result when representable.
  function Exact(x: int): Option<int64> {
    if InRange(x) then Some(x) else None
  }

  function AddInt64(a: int64, b: int64): Option<int64> {
    var s := Wrap(a + b);
    if (a > 0 && b > 0 && s < 0) || (a < 0 && b < 0 && s >= 0) then None else Some(s)
  }

  function SubInt64(a: int64, b: int64): Option<int64> {
    var d := Wrap(a - b);
    if (a >= 0 && b < 0 && d < 0) || (a < 0 && b > 0 && d >= 0) then None else Some(d)
  }

  // The sign tests detect every overflow of a sum or a difference.
  lemma AddExact(a: int64, b: int64)
    ensures AddInt64(a, b) == Exact(a + b)
  {
    var k := WrapShift(a + b);
  }

  lemma SubExact(a: int64, b: int64)
    ensures SubInt64(a, b) == Exact(a - b)
  {
    var k := WrapShift(a - b);
  }

  function MulInt64(a: int64, b: int64): Option<int64> {
    if a == 0 || b == 0 then Some(0)
    else
      var p := Wrap(a * b);
      if (a == MIN_INT64 && b == -1) || (b == MIN_INT64 && a == -1) then None
      else if TruncDiv(p, a) != b then None
      else Some(p)
  }

  // The remainder of a truncated division is smaller than the divisor.
  lemma TruncRemainder(p: int, a: int)
    requires a != 0
    ensures Abs(p - TruncDiv(p, a) * a) < Abs(a)
  {
    var q := if p >= 0 then p / a else (-p) / a;
    assert (if p >= 0 then p else -p) == q * a + (if p >= 0 then p % a else (-p) % a);
  }

  function Abs(x: int): nat { if x < 0 then -x else x }

  lemma AbsMul(x: int, y: int)
    ensures Abs(x * y) == Abs(x) * Abs(y)
  {
    if x < 0 && y < 0 { assert x * y == (-x) * (-y); }
    else if x < 0 { assert x * y == -((-x) * y); }
    else if y < 0 { assert x * y == -(x * (-y)); }
  }

  // A multiple of a smaller than a is zero.
  lemma SmallMultiple(a: int, d: int)
    requires Abs(a * d) < Abs(a)
    ensures d == 0
  {
    AbsMul(a, d);
    if d != 0 { MulMonotone(Abs(a), 1, Abs(d)); }
  }

  lemma MulMonotone(m: nat, x: nat, y: nat)
    requires x <= y
    ensures m * x <= m * y
  {
  }

  lemma TruncExact(a: int, b: int)
    requires a != 0
    ensures TruncDiv(a * b, a) == b
  {
    var q := TruncDiv(a * b, a);
    TruncRemainder(a * b, a);
    assert a * b - q * a == a * (b - q);
    SmallMultiple(a, b - q);
  }

  // Dividing the wrapped product back detects every overflow.
  lemma MulExact(a: int64, b: int64)
    ensures MulInt64(a, b) == Exact(a * b)
  {
    if a != 0 && b != 0 {
      var p := Wrap(a * b);
      var k := WrapShift(a * b);
      if k == 0 {
        TruncExact(a, b);
      } else {
        TruncRemainder(p, a);
        assert p - b * a == -(k * 0x1_0000_0000_0000_0000);
      }
    }
  }

  function DivInt64(a: int64, b: int64): (r: Option<int64>)
    requires b != 0
    ensures r == Exact(TruncDiv(a, b))
  {
    QuotientBound(a, b);
    var q := TruncDiv(a, b);
    if a == MIN_INT64 && b == -1 then None else Some(q)
  }

  lemma AbsQuotient(a: int, b: int)
    requires b != 0
    ensures Abs(TruncDiv(a, b)) == Abs(a) / Abs(b)
    ensures (a >= 0) == (b > 0) ==> TruncDiv(a, b) >= 0
    ensures (a >= 0) != (b > 0) ==> TruncDiv(a, b) <= 0
  {
    var n: int, d: int := Abs(a), Abs(b);
    SmallQuotient(n, d);
    if b < 0 {
      NegativeDivisor(n, d);
      assert b == 0 - d;
    }
    assert (if b < 0 then n / b == -(n / d) else n / b == n / d);
  }

  lemma QuotientBound(a: int, b: int)
    requires b != 0
    ensures Abs(TruncDiv(a, b)) <= Abs(a)
    ensures TruncDiv(a, b) == -a ==> a == 0 || b == -1
    ensures b == -1 ==> TruncDiv(a, b) == -a
  {
    AbsQuotient(a, b);
    SmallQuotient(Abs(a), Abs(b));
    if b == -1 { NegativeDivisor(Abs(a), 1); }
  }

  lemma NegativeDivisor(n: nat, d: int)
    requires d > 0
    ensures n / (-d) == -(n / d)
  {
    var q, r := n / d, n % d;
    assert n == (-d) * (-q) + r;
    DivUnique(n, -d, -q, r);
  }

  lemma DivUnique(n: int, d: int, q: int, r: int)
    requires d != 0 && n == d * q + r && 0 <= r < Abs(d)
    ensures n / d == q
  {
    var q1, r1 := n / d, n % d;
    assert d * (q1 - q) == r - r1;
    if q1 != q {
      assert Abs(d * (q1 - q)) >= Abs(d) by {
        assert Abs(d * (q1 - q)) == Abs(d) * Abs(q1 - q);
      }
    }
  }

  lemma SmallQuotient(n: nat, d: int)
    requires d > 0
    ensures 0 <= n / d <= n && (n / d == n ==> n == 0 || d == 1)
  {
    var q, r := n / d, n % d;
    assert n == q * d + r;
    assert q >= 0;
    MulMonotone(q, 1, d);
    if d >= 2 { MulMonotone(q, 2, d); }
  }

  // Floor of the true quotient.
  predicate IsFloor(q: int, a: int, b: int)
    requires b != 0
  {
    if b > 0 then q * b <= a < (q + 1) * b else (q + 1) * b < a <= q * b
  }

  function FloorDivInt64(a: int64, b: int64): (r: Option<int64>)
    requires b != 0
    ensures r.None? <==> a == MIN_INT64 && b == -1
    ensures r.Some? ==> IsFloor(r.value, a, b)
  {
    FloorFacts(a, b);
    match DivInt64(a, b)
    case None => None
    case Some(q) => if TruncMod(a, b) != 0 && (a < 0) != (b < 0) then Some(q - 1) else Some(q)
  }

  lemma FloorFacts(a: int64, b: int64)
    requires b != 0
    ensures a != MIN_INT64 || b != -1 ==>
      var q := TruncDiv(a, b); var f := if TruncMod(a, b) != 0 && (a < 0) != (b < 0) then q - 1 else q;
      InRange(q) && InRange(f) && IsFloor(f, a, b)
  {
    QuotientBound(a, b);
    TruncRemainder(a, b);
    TruncSign(a, b);
  }

  // The remainder takes the sign of the dividend, and the quotient that of the operands.
  lemma TruncSign(a: int, b: int)
    requires b != 0
    ensures a >= 0 ==> TruncMod(a, b) >= 0
    ensures a <= 0 ==> TruncMod(a, b) <= 0
    ensures TruncMod(a, b) != 0 && TruncDiv(a, b) == MIN_INT64 ==> Abs(a) > Abs(MIN_INT64)
  {
    if a >= 0 { assert TruncMod(a, b) == a % b; } else { assert TruncMod(a, b) == -((-a) % b); }
    QuotientBound(a, b);
    if TruncMod(a, b) != 0 && TruncDiv(a, b) == MIN_INT64 {
      var q := TruncDiv(a, b);
      assert a == q * b + TruncMod(a, b);
      if Abs(a) == Abs(q) { SmallQuotient(Abs(a), Abs(b)); ExactByOne(a, b); }
    }
  }

  lemma ExactByOne(a: int, b: int)
    requires b != 0 && Abs(TruncDiv(a, b)) == Abs(a) && a != 0
    ensures TruncMod(a, b) == 0
  {
    if b < 0 { NegativeDivisor(Abs(a), -b); }
    SmallQuotient(Abs(a), Abs(b));
  }

  // ----- powers -----

  function Pow(a: int, e: nat): int {
    if e == 0 then 1 else a * Pow(a, e - 1)
  }

  lemma {:induction false} PowSquare(a: int, k: nat)
    ensures Pow(a * a, k) == Pow(a, 2 * k)
  {
    if k > 0 {
      PowSquare(a, k - 1);
      assert Pow(a, 2 * k) == a * (a * Pow(a, 2 * (k - 1)));
      assert a * (a * Pow(a, 2 * (k - 1))) == (a * a) * Pow(a, 2 * (k - 1));
    }
  }

  lemma {:induction false} PowPositive(b: int, k: nat)
    requires b >= 1
    ensures Pow(b, k) >= 1 && (k > 0 ==> Pow(b, k) >= b)
  {
    if k > 0 {
      PowPositive(b, k - 1);
      assert b * Pow(b, k - 1) >= b * 1;
    }
  }

  // 2^63 is no square, so a square past the range is past its negative end too.
  lemma SquareBeyond(b: int)
    requires b * b > MAX_INT64
    ensures b * b > -MIN_INT64
  {
    AbsMul(b, b);
    if Abs(b) <= 3037000499 { SquareMonotone(Abs(b), 3037000499); } else { SquareMonotone(3037000500, Abs(b)); }
  }

  lemma SquareMonotone(x: nat, y: nat)
    requires x <= y
    ensures x * x <= y * y
  {
    assert x * x <= x * y <= y * y;
  }

  // An overflowing product stays out of range whatever even power still multiplies it.
  lemma ProductBeyond(p: int, base: int, k: nat)
    requires !InRange(p) && base != 0
    ensures !InRange(p * Pow(base, 2 * k))
  {
    PowSquare(base, k);
    var sq := base * base;
    assert sq >= 1 by { assert sq == Abs(base) * Abs(base); }
    PowPositive(sq, k);
    var t := Pow(sq, k);
    if p > 0 { assert p * t >= p; } else { assert p * t <= p; }
  }

  lemma SquareOverflows(result: int, base: int, k: nat)
    requires result != 0 && !InRange(base * base) && k >= 1
    ensures !InRange(result * Pow(base, 2 * k))
  {
    PowSquare(base, k);
    var sq := base * base;
    assert sq >= 0 by { assert sq == Abs(base) * Abs(base); }
    SquareBeyond(base);
    PowPositive(sq, k);
    var t := Pow(sq, k);
    if result > 0 { assert result * t >= t; } else { assert result * t <= -t; }
  }

  // Exponentiation by squaring succeeds exactly when the power is representable, even though it
  // fails as soon as a square overflows.
  method PowInt64(a: int64, e: int64) returns (r: Option<int64>)
    requires e >= 0
    ensures r == Exact(Pow(a, e))
  {
    var result: int64 := 1;
    var base: int64 := a;
    var n: int := e;
    while n > 0
      invariant n >= 0
      invariant result * Pow(base, n) == Pow(a, e)
      invariant base == 0 <==> a == 0
      invariant result == 0 ==> a == 0
    {
      ghost var before, k := result, n / 2;
      if n % 2 == 1 {
        MulExact(result, base);
        assert Pow(base, n) == base * Pow(base, 2 * k);
        assert result * Pow(base, n) == (result * base) * Pow(base, 2 * k) by {
          assert result * (base * Pow(base, 2 * k)) == (result * base) * Pow(base, 2 * k);
        }
        var p := MulInt64(result, base);
        if p.None? {
          if base != 0 { ProductBeyond(result * base, base, k); }
          return None;
        }
        result := p.value;
        assert result == 0 ==> a == 0 by { assert before != 0 && base != 0 ==> before * base != 0; }
      }
      n := n / 2;
      assert result * Pow(base, 2 * n) == Pow(a, e);
      if n == 0 { break; }
      MulExact(base, base);
      var sq := MulInt64(base, base);
      if sq.None? {
        if a != 0 { SquareOverflows(result, base, n); }
        return None;
      }
      PowSquare(base, n);
      base := sq.value;
      assert base == 0 ==> a == 0;
    }
    r := Some(result);
    assert n == 0 ==> Pow(base, n) == 1;
  }
}
