/** Conversions between integer types of different widths.  A value of type iN
    is its bit pattern, a number below 2^N. */
module Width {
  import opened Int32
  import opened Layout

  /** What the pattern means as a signed number. */
  function Signed(p: nat, n: nat): int
    requires n > 0 && p < Pow2(n)
  {
    if p >= Pow2(n - 1) then p - Pow2(n) else p
  }

  predicate InRange(v: int, n: nat)
    requires n > 0
  {
    var half: int := Pow2(n - 1);
    -half <= v < half
  }

  function Trunc(p: nat, to: nat): (r: nat)
    ensures r < Pow2(to)
  {
    p % Pow2(to)
  }

  function Sext(p: nat, from: nat, to: nat): nat
    requires 0 < from <= to && p < Pow2(from)
  {
    if from == to then p
    else
      Pow2Grows(from, to);
      if p >= Pow2(from - 1) then p + Pow2(to) - Pow2(from) else p
  }

  /** cast_value between iM and iN: nothing, trunc or sext. */
  function CastValue(p: nat, from: nat, to: nat): (r: nat)
    requires 0 < from && 0 < to && p < Pow2(from)
    ensures r < Pow2(to)
  {
    if from == to then p
    else if from > to then Trunc(p, to)
    else
      Pow2Grows(from, to);
      Sext(p, from, to)
  }

  /** The signed n-bit number congruent to v modulo 2^n (C99 6.3.1.3). */
  function Reduce(v: int, n: nat): (r: int)
    requires n > 0
    ensures InRange(r, n)
  {
    var m := v % Pow2(n);
    if m >= Pow2(n - 1) then m - Pow2(n) else m
  }

  lemma IntMultipleMod(q: int, r: nat, d: nat)
    requires r < d
    ensures (q * d + r) % d == r
  {
    var x := q * d + r;
    var s, t := x / d, x % d;
    assert x == d * s + t == s * d + t;
    SameRemainder(q, r, s, t, d);
  }

  lemma Distribute(k: int, q: int, d: int)
    ensures (k + q) * d == k * d + q * d
  {
  }

  lemma ModShift(v: int, q: int, d: nat)
    requires d > 0
    ensures (v + q * d) % d == v % d
  {
    var k, m := v / d, v % d;
    Distribute(k, q, d);
    IntMultipleMod(k + q, m, d);
    assert v == k * d + m;
  }

  /** Numbers that differ by a multiple of 2^n reduce alike. */
  lemma ReduceCongruent(v: int, q: int, n: nat)
    requires n > 0
    ensures Reduce(v + q * Pow2(n), n) == Reduce(v, n)
  {
    ModShift(v, q, Pow2(n));
  }

  /** A number in range is its own reduction. */
  lemma ReduceInRange(v: int, n: nat)
    requires n > 0 && InRange(v, n)
    ensures Reduce(v, n) == v
  {
    var d := Pow2(n);
    if v >= 0 {
      IntMultipleMod(0, v, d);
    } else {
      IntMultipleMod(-1, v + d, d);
    }
  }

  /** Reducing to a wider type first changes nothing. */
  lemma ReduceTwice(v: int, m: nat, n: nat)
    requires 0 < n <= m
    ensures Reduce(Reduce(v, m), n) == Reduce(v, n)
  {
    hide Pow2;
    var d, e := Pow2(m), Pow2(n);
    PowersDivide(n, m);
    DivisionParts(d, e);
    var f := d / e;
    var k := v / d;
    var r := Reduce(v, m);
    var q := if v % d >= Pow2(m - 1) then k + 1 else k;
    assert v == d * k + v % d;
    assert v == r + q * d by {
      assert (k + 1) * d == k * d + d;
    }
    assert q * d == (q * f) * e by {
      assert d == f * e;
      Regroup(q, f, e);
    }
    ReduceCongruent(r, q * f, n);
  }

  lemma Regroup(a: int, b: int, c: int)
    ensures a * (b * c) == (a * b) * c
  {
  }

  lemma SignedInRange(p: nat, n: nat)
    requires n > 0 && p < Pow2(n)
    ensures InRange(Signed(p, n), n)
    ensures Reduce(Signed(p, n), n) == Signed(p, n)
  {
    ReduceInRange(Signed(p, n), n);
  }

  lemma TruncReduces(p: nat, from: nat, to: nat)
    requires 0 < to < from && p < Pow2(from)
    ensures Signed(Trunc(p, to), to) == Reduce(Signed(p, from), to)
  {
    hide Pow2;
    var q: int := if p >= Pow2(from - 1) then -1 else 0;
    var d, e := Pow2(from), Pow2(to);
    PowersDivide(to, from);
    DivisionParts(d, e);
    var f := d / e;
    Regroup(q, f, e);
    assert Signed(p, from) == p + q * d;
    ReduceCongruent(p, q * f, to);
  }

  lemma SextKeeps(p: nat, from: nat, to: nat)
    requires 0 < from < to && p < Pow2(from)
    ensures Sext(p, from, to) < Pow2(to) && Signed(Sext(p, from, to), to) == Signed(p, from)
    ensures InRange(Signed(p, from), to)
  {
    Pow2Grows(from, to);
    if from < to - 1 {
      Pow2Grows(from, to - 1);
    }
  }

  /** A cast gives the value reduced modulo 2^n into the signed range. */
  lemma CastReduces(p: nat, from: nat, to: nat)
    requires 0 < from && 0 < to && p < Pow2(from)
    ensures Signed(CastValue(p, from, to), to) == Reduce(Signed(p, from), to)
  {
    hide Pow2, Signed, Reduce, Sext, Trunc;
    SignedInRange(p, from);
    if from > to {
      TruncReduces(p, from, to);
    } else if from < to {
      SextKeeps(p, from, to);
      ReduceInRange(Signed(p, from), to);
    }
  }

  /** Widening and narrowing again is the identity. */
  lemma WidenNarrow(p: nat, from: nat, to: nat)
    requires 0 < from <= to && p < Pow2(from)
    ensures CastValue(CastValue(p, from, to), to, from) == p
  {
    if from < to {
      PowersDivide(from, to);
      DivisionParts(Pow2(to), Pow2(from));
      var f := Pow2(to) / Pow2(from);
      if p >= Pow2(from - 1) {
        assert p + Pow2(to) - Pow2(from) == (f - 1) * Pow2(from) + p by {
          assert (f - 1) * Pow2(from) == f * Pow2(from) - Pow2(from);
        }
        IntMultipleMod(f - 1, p, Pow2(from));
      } else {
        IntMultipleMod(0, p, Pow2(from));
      }
    }
  }

  // ----- Chains of assignments -----

  predicate Widths(ws: seq<nat>) { forall i :: 0 <= i < |ws| ==> ws[i] > 0 }

  /** A value handed from variable to variable: loaded at one width, cast and
      stored at the next. */
  function Chain(p: nat, from: nat, ws: seq<nat>): nat
    requires 0 < from && p < Pow2(from) && Widths(ws)
    decreases ws
  {
    if ws == [] then p else Chain(CastValue(p, from, ws[0]), ws[0], ws[1..])
  }

  function LastWidth(from: nat, ws: seq<nat>): (n: nat)
    requires from > 0 && Widths(ws)
    ensures n > 0
  {
    if ws == [] then from else ws[|ws| - 1]
  }

  function Narrowest(from: nat, ws: seq<nat>): (n: nat)
    requires from > 0 && Widths(ws)
    ensures 0 < n <= from && (forall i :: 0 <= i < |ws| ==> n <= ws[i])
    decreases ws
  {
    if ws == [] then from
    else
      var n := Narrowest(if ws[0] < from then ws[0] else from, ws[1..]);
      assert forall i :: 0 < i < |ws| ==> ws[i] == ws[1..][i - 1];
      n
  }

  /** Whatever the way, the result is the value reduced to the narrowest type it
      went through. */
  lemma {:induction false} ChainReducesToNarrowest(p: nat, from: nat, ws: seq<nat>)
    requires 0 < from && p < Pow2(from) && Widths(ws)
    ensures Chain(p, from, ws) < Pow2(LastWidth(from, ws))
    ensures Signed(Chain(p, from, ws), LastWidth(from, ws)) == Reduce(Signed(p, from), Narrowest(from, ws))
    decreases ws
  {
    SignedInRange(p, from);
    if ws != [] {
      var w, rest := ws[0], ws[1..];
      var p1 := CastValue(p, from, w);
      var v := Signed(p, from);
      ChainReducesToNarrowest(p1, w, rest);
      CastReduces(p, from, w);
      var n := Narrowest(w, rest);
      ReduceTwice(v, w, n);
      NarrowestFrom(w, if w < from then w else from, rest);
      if w > from && n > from {
        WideEnough(v, from, n);
      }
    }
  }

  lemma WideEnough(v: int, m: nat, n: nat)
    requires 0 < m <= n && InRange(v, m)
    ensures Reduce(v, n) == v == Reduce(v, m)
  {
    if m < n {
      Pow2Grows(m - 1, n - 1);
    }
    ReduceInRange(v, n);
    ReduceInRange(v, m);
  }

  lemma {:induction false} NarrowestFrom(a: nat, b: nat, ws: seq<nat>)
    requires a > 0 && b > 0 && b <= a && Widths(ws)
    ensures Narrowest(b, ws) == if Narrowest(a, ws) < b then Narrowest(a, ws) else b
    decreases ws
  {
    if ws != [] {
      NarrowestFrom(if ws[0] < a then ws[0] else a, if ws[0] < b then ws[0] else b, ws[1..]);
    }
  }

  // ----- Where the signed casts go wrong -----

  /** A comparison's one bit, stored at any wider type, is -1 where C has 1: it is
      C's value exactly when the comparison is false. */
  lemma StoredComparison(b: nat, n: nat)
    requires b < 2 && n > 1
    ensures b < Pow2(1) && Signed(CastValue(b, 1, n), n) == 0 - b
    ensures Signed(CastValue(b, 1, n), n) == b <==> b == 0
  {
    var v: int := b;
    SmallPowers();
    CastReduces(b, 1, n);
    assert Signed(b, 1) == -v;
    Pow2Grows(0, n - 1);
    ReduceInRange(-v, n);
  }

  lemma SmallPowers()
    ensures Pow2(0) == 1 && Pow2(1) == 2
  {
  }

  /** An unsigned value with its top bit set is widened as a negative one. */
  lemma UnsignedWidened(p: nat, from: nat, to: nat)
    requires 0 < from < to && p < Pow2(from)
    ensures CastValue(p, from, to) == p <==> p < Pow2(from - 1)
  {
    Pow2Grows(from, to);
  }

  // ----- Widths and sizes -----

  /** The bits of the LLVM type that a basic type is printed as. */
  function Bits(b: BaseType): nat
    requires !b.StructT? && !b.UnionT?
  {
    match b
    case CharT => 8
    case ShortT => 16
    case IntT => 32
    case LongT => 64
    case FloatT => 32
    case DoubleT => 64
    case BoolT => 1
    case VoidT => 0
    case EnumT => 32
  }

  /** A basic type's size is the least number of bytes that hold its bits, and
      casts to that width and back are the identity. */
  lemma SizesHoldWidths(b: BaseType, p: nat)
    requires !b.StructT? && !b.UnionT?
    ensures 8 * BasicSize(b) >= Bits(b)
    ensures forall n: nat :: 8 * n >= Bits(b) ==> n >= BasicSize(b)
    ensures Bits(b) > 0 && p < Pow2(Bits(b)) ==>
              CastValue(CastValue(p, Bits(b), 8 * BasicSize(b)), 8 * BasicSize(b), Bits(b)) == p
  {
    hide Pow2, CastValue;
    if Bits(b) > 0 && p < Pow2(Bits(b)) {
      WidenNarrow(p, Bits(b), 8 * BasicSize(b));
    }
  }

  /** An int and an enum have the 32 bits of the arithmetic, a pointer has 64, and
      no basic type is larger. */
  lemma IntIsModulus(b: BaseType)
    requires !b.StructT? && !b.UnionT?
    ensures Pow2(Bits(IntT)) == MODULUS && Bits(EnumT) == Bits(IntT)
    ensures BasicSize(b) <= POINTER_SIZE && 8 * POINTER_SIZE == 64
  {
    Pow2Of32(Bits(IntT));
  }
}
