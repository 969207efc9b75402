/** 32-bit signed arithmetic.  The C side and the IR side of the model both
    work on these values: sums, differences, products and left shifts wrap
    around, while a division by zero, the one overflowing division and an
    oversized shift have no result. */
module Int32 {

  const MODULUS := 0x1_0000_0000
  const HALF := 0x8000_0000

  type int32 = x: int | -0x8000_0000 <= x < 0x8000_0000

  /** The one 32-bit value congruent to x. */
  function Wrap(x: int): (r: int32)
    ensures (r - x) % MODULUS == 0
    ensures -HALF <= x < HALF ==> r == x
  {
    var m := x % MODULUS;
    if m < HALF then m else m - MODULUS
  }

  function Abs(x: int): nat { if x < 0 then -x else x }

  function Pow2(n: nat): (r: nat)
    ensures r > 0
  {
    if n == 0 then 1 else 2 * Pow2(n - 1)
  }

  predicate DivisionDefined(a: int32, b: int32) {
    b != 0 && !(a == -HALF && b == -1)
  }

  /** Division truncating toward zero, as C99 and LLVM's sdiv prescribe. */
  function Quotient(a: int32, b: int32): int
    requires DivisionDefined(a, b)
  {
    if (a < 0) == (b < 0) then Abs(a) / Abs(b) else -(Abs(a) / Abs(b))
  }

  function Remainder(a: int32, b: int32): int
    requires DivisionDefined(a, b)
  {
    if a < 0 then -(Abs(a) % Abs(b)) else Abs(a) % Abs(b)
  }

  predicate ShiftDefined(b: int32) { 0 <= b < 32 }

  /** The bitwise operators, on the two's-complement patterns of 32 bits. */
  datatype Gate = AndGate | OrGate | XorGate

  function GateBit(g: Gate, x: nat, y: nat): (r: nat)
    requires x < 2 && y < 2
    ensures r < 2
  {
    match g
    case AndGate => if x == 1 && y == 1 then 1 else 0
    case OrGate => if x == 1 || y == 1 then 1 else 0
    case XorGate => if x != y then 1 else 0
  }

  function Combine(g: Gate, a: nat, b: nat, bits: nat): (r: nat)
    ensures r < Pow2(bits)
    decreases bits, a
  {
    if bits == 0 then 0
    else GateBit(g, a % 2, b % 2) + 2 * Combine(g, a / 2, b / 2, bits - 1)
  }

  function Bitwise(g: Gate, a: int32, b: int32): int32 {
    Wrap(Combine(g, a % MODULUS, b % MODULUS, 32))
  }

  /** Exclusive-or with all ones is the complement. */
  lemma {:induction false} XorOnes(a: nat, bits: nat)
    requires a < Pow2(bits)
    ensures Combine(XorGate, a, Pow2(bits) - 1, bits) == Pow2(bits) - 1 - a
    decreases bits
  {
    if bits > 0 {
      var ones := Pow2(bits) - 1;
      assert ones % 2 == 1 && ones / 2 == Pow2(bits - 1) - 1;
      XorOnes(a / 2, bits - 1);
    }
  }

  lemma Pow2Step(n: nat)
    ensures Pow2(n + 8) == 0x100 * Pow2(n)
  {
    assert Pow2(n + 8) == 2 * Pow2(n + 7) == 4 * Pow2(n + 6) == 8 * Pow2(n + 5) == 16 * Pow2(n + 4);
    assert Pow2(n + 4) == 2 * Pow2(n + 3) == 4 * Pow2(n + 2) == 8 * Pow2(n + 1) == 16 * Pow2(n);
  }

  lemma Pow2Of32(n: nat)
    requires n == 32
    ensures Pow2(n) == MODULUS
  {
    Pow2Step(n - 8);
    Pow2Step(n - 16);
    Pow2Step(n - 24);
    Pow2Step(n - 32);
  }

  /** `xor i32 x, -1` computes C's ~x, the value -1 - x. */
  lemma XorMinusOne(x: int32)
    ensures Bitwise(XorGate, x, -1) == Wrap(-1 - x)
  {
    XorPattern(x % MODULUS, 32);
    MinusOnePattern(x);
  }

  lemma XorPattern(a: nat, bits: nat)
    requires bits == 32 && a < MODULUS
    ensures Combine(XorGate, a, MODULUS - 1, bits) == MODULUS - 1 - a
  {
    Pow2Of32(bits);
    XorOnes(a, bits);
  }

  lemma MinusOnePattern(x: int32)
    ensures (-1) % MODULUS == MODULUS - 1
    ensures Wrap(MODULUS - 1 - x % MODULUS) == Wrap(-1 - x)
  {
  }

  // ----- What the bitwise operators are -----

  /** Bit i of a number that is not negative. */
  function BitAt(x: nat, i: nat): (r: nat)
    ensures r < 2
  {
    x / Pow2(i) % 2
  }

  /** Bit i of the two's-complement pattern. */
  function PatternBit(x: int32, i: nat): nat { BitAt(x % MODULUS, i) }

  lemma HalfDivides(x: nat, n: nat)
    requires n > 0
    ensures x / (2 * n) == x / 2 / n
  {
    var h := x / 2;
    var q, m := h / n, h % n;
    assert h == n * q + m;
    assert x == (2 * n) * q + (2 * m + x % 2);
    QuotientIs(x, 2 * n, q, 2 * m + x % 2);
  }

  lemma QuotientIs(x: nat, d: nat, q: nat, r: nat)
    requires r < d && x == d * q + r
    ensures x / d == q
  {
    var s, t := x / d, x % d;
    assert x == d * s + t && t < d;
    if s < q {
      MulOrder(s + 1, q, d);
    } else if q < s {
      MulOrder(q + 1, s, d);
    }
  }

  lemma BitBelow(x: nat, i: nat)
    requires i > 0
    ensures BitAt(x, i) == BitAt(x / 2, i - 1)
  {
    HalfDivides(x, Pow2(i - 1));
  }

  lemma LowestBit(b: nat, x: nat)
    requires b < 2
    ensures BitAt(b + 2 * x, 0) == b && (b + 2 * x) / 2 == x
  {
  }

  /** Each bit of the result comes from the two bits in its place. */
  lemma {:induction false} CombineBits(a: nat, b: nat, bits: nat, i: nat)
    requires i < bits
    ensures BitAt(Combine(AndGate, a, b, bits), i) == 1 <==> BitAt(a, i) == 1 && BitAt(b, i) == 1
    ensures BitAt(Combine(OrGate, a, b, bits), i) == 1 <==> BitAt(a, i) == 1 || BitAt(b, i) == 1
    ensures BitAt(Combine(XorGate, a, b, bits), i) == 1 <==> BitAt(a, i) != BitAt(b, i)
    decreases i
  {
    hide BitAt;
    CombineBit(AndGate, a, b, bits);
    CombineBit(OrGate, a, b, bits);
    CombineBit(XorGate, a, b, bits);
    if i > 0 {
      CombineBits(a / 2, b / 2, bits - 1, i - 1);
      BitBelow(a, i);
      BitBelow(b, i);
      BitBelow(Combine(AndGate, a, b, bits), i);
      BitBelow(Combine(OrGate, a, b, bits), i);
      BitBelow(Combine(XorGate, a, b, bits), i);
    }
  }

  lemma CombineBit(g: Gate, a: nat, b: nat, bits: nat)
    requires bits > 0
    ensures BitAt(Combine(g, a, b, bits), 0) == GateBit(g, BitAt(a, 0), BitAt(b, 0))
    ensures Combine(g, a, b, bits) / 2 == Combine(g, a / 2, b / 2, bits - 1)
  {
    LowestBit(GateBit(g, a % 2, b % 2), Combine(g, a / 2, b / 2, bits - 1));
    LowestBit(a % 2, a / 2);
    LowestBit(b % 2, b / 2);
  }

  /** Or and and together are the sum; so are exclusive-or and twice and. */
  lemma {:induction false} GatesAdd(a: nat, b: nat, bits: nat)
    requires a < Pow2(bits) && b < Pow2(bits)
    ensures Combine(OrGate, a, b, bits) + Combine(AndGate, a, b, bits) == a + b
    ensures Combine(XorGate, a, b, bits) + 2 * Combine(AndGate, a, b, bits) == a + b
    decreases bits
  {
    if bits > 0 {
      GatesAdd(a / 2, b / 2, bits - 1);
      assert a == a % 2 + 2 * (a / 2) && b == b % 2 + 2 * (b / 2);
    }
  }

  lemma BitwisePattern(g: Gate, a: int32, b: int32)
    ensures Bitwise(g, a, b) % MODULUS == Combine(g, a % MODULUS, b % MODULUS, 32)
  {
    Pow2Of32(32);
  }

  /** The bits of `&`, `|` and `^`. */
  lemma BitwiseBits(a: int32, b: int32, i: nat)
    requires i < 32
    ensures PatternBit(Bitwise(AndGate, a, b), i) == 1 <==> PatternBit(a, i) == 1 && PatternBit(b, i) == 1
    ensures PatternBit(Bitwise(OrGate, a, b), i) == 1 <==> PatternBit(a, i) == 1 || PatternBit(b, i) == 1
    ensures PatternBit(Bitwise(XorGate, a, b), i) == 1 <==> PatternBit(a, i) != PatternBit(b, i)
  {
    hide Combine, BitAt, Bitwise;
    BitwisePattern(AndGate, a, b);
    BitwisePattern(OrGate, a, b);
    BitwisePattern(XorGate, a, b);
    CombineBits(a % MODULUS, b % MODULUS, 32, i);
  }

  /** The same laws for 32-bit values. */
  lemma BitwiseAdds(a: int32, b: int32)
    ensures Wrap(Bitwise(OrGate, a, b) + Bitwise(AndGate, a, b)) == Wrap(a + b)
    ensures Wrap(Bitwise(XorGate, a, b) + 2 * Bitwise(AndGate, a, b)) == Wrap(a + b)
  {
    hide Combine, Bitwise;
    Pow2Of32(32);
    GatesAdd(a % MODULUS, b % MODULUS, 32);
    BitwisePattern(AndGate, a, b);
    BitwisePattern(OrGate, a, b);
    BitwisePattern(XorGate, a, b);
    PatternsAdd(Bitwise(OrGate, a, b), Bitwise(AndGate, a, b), 1, a, b);
    PatternsAdd(Bitwise(XorGate, a, b), Bitwise(AndGate, a, b), 2, a, b);
  }

  lemma PatternsAdd(x: int32, y: int32, n: int, a: int32, b: int32)
    requires n == 1 || n == 2
    requires x % MODULUS + n * (y % MODULUS) == a % MODULUS + b % MODULUS
    ensures Wrap(x + n * y) == Wrap(a + b)
  {
    hide Wrap;
    var v: int, w: int := x + n * y, a + b;
    SameWrap(v, w, Borrow(a) + Borrow(b) - Borrow(x) - n * Borrow(y));
  }

  /** How far a value is below its pattern, in units of the modulus. */
  function Borrow(x: int32): (k: int)
    ensures x % MODULUS == x + k * MODULUS
  {
    if x < 0 then 1 else 0
  }

  lemma SameWrap(x: int, y: int, k: int)
    requires x == y + k * MODULUS
    ensures Wrap(x) == Wrap(y)
  {
  }

  /** A shift is defined when it is by fewer bits than there are. */
  lemma ShiftsInWidth(b: int32)
    ensures ShiftDefined(b) <==> b >= 0 && Pow2(b) < MODULUS
  {
    Pow2Of32(32);
    if b > 32 {
      Pow2Grows(32, b);
    } else if 0 <= b < 32 {
      Pow2Grows(b, 32);
    }
  }

  lemma {:induction false} Pow2Grows(k: nat, n: nat)
    requires k < n
    ensures Pow2(k) < Pow2(n)
    decreases n
  {
    if k < n - 1 {
      Pow2Grows(k, n - 1);
    }
  }

  /** The law that ties C's `/` and `%` together (C99 6.5.5). */
  lemma DivisionLaw(a: int32, b: int32)
    requires DivisionDefined(a, b)
    ensures Quotient(a, b) * b + Remainder(a, b) == a
    ensures Abs(Remainder(a, b)) < Abs(b)
    ensures Remainder(a, b) == 0 || (Remainder(a, b) < 0) == (a < 0)
    ensures -HALF <= Quotient(a, b) < HALF
  {
    var q, m := Abs(a) / Abs(b), Abs(a) % Abs(b);
    var p := q * Abs(b);
    DivisionParts(Abs(a), Abs(b));
    Signs(q, Abs(b), p, b, (a < 0) == (b < 0));
  }

  lemma DivisionParts(n: nat, d: nat)
    requires d > 0
    ensures (n / d) * d + n % d == n && n % d < d
    ensures 0 <= n / d <= n
    ensures d >= 2 && n > 0 ==> n / d < n
  {
    var q, m := n / d, n % d;
    assert q * d + m == n && 0 <= m < d;
    ProductBound(q, d, n - m);
  }

  lemma ProductBound(q: int, d: nat, p: int)
    requires p == q * d && d > 0 && p > -(d as int)
    ensures 0 <= q <= p || q == p == 0
    ensures d >= 2 && q > 0 ==> q < p
  {
    if q < 0 {
      MulOrder(q, -1, d);
    } else if q > 0 {
      MulOrder(1, d, q);
      if d >= 2 {
        MulOrder(2, d, q);
      }
    }
  }

  lemma MulOrder(x: int, y: int, z: nat)
    requires x <= y
    ensures x * z <= y * z
  {
  }

  lemma Signs(q: int, d: int, p: int, b: int, same: bool)
    requires p == q * d && (b == d || b == -d)
    ensures (if same then q else -q) * b == if same == (b == d) || b == 0 then p else -p
  {
  }
}
