/** Where the members of a struct or union go. */
module Layout {
  import opened Options
  import opened Int32

  const SIZE_T := 0x1_0000_0000_0000_0000

  // ----- Rounding up -----

  ghost predicate IsPowerOfTwo(a: nat) { exists k: nat :: Pow2(k) == a }

  /** The least multiple of a that is not below n. */
  function RoundUp(n: nat, a: nat): nat
    requires a > 0
  {
    (n + a - 1) / a * a
  }

  lemma RoundUpIsLeast(n: nat, a: nat, m: nat)
    requires a > 0
    ensures RoundUp(n, a) % a == 0 && n <= RoundUp(n, a) < n + a
    ensures m % a == 0 && m >= n ==> m >= RoundUp(n, a)
  {
    var q := (n + a - 1) / a;
    DivisionParts(n + a - 1, a);
    MultipleMod(q, a);
    DivisionParts(m, a);
    if m % a == 0 && m >= n {
      NextMultiple(m / a, q, a, n);
    }
  }

  lemma NextMultiple(p: nat, q: nat, a: nat, n: nat)
    requires q * a < n + a && p * a >= n
    ensures p * a >= q * a
  {
    if p < q {
      MulOrder(p + 1, q, a);
    }
  }

  lemma MultipleMod(q: nat, a: nat)
    requires a > 0
    ensures (q * a) % a == 0
  {
    if q > 0 {
      MultipleMod(q - 1, a);
      assert q * a == (q - 1) * a + a;
      ModAdd((q - 1) * a, a);
    }
  }

  lemma ModAdd(x: nat, a: nat)
    requires a > 0
    ensures (x + a) % a == x % a
  {
    DivisionParts(x, a);
    DivisionParts(x + a, a);
    SameRemainder(x / a + 1, x % a, (x + a) / a, (x + a) % a, a);
  }

  lemma SameRemainder(p: int, r: nat, q: int, s: nat, a: nat)
    requires r < a && s < a && p * a + r == q * a + s
    ensures r == s
  {
    if p < q {
      MulOrder(p + 1, q, a);
    } else if q < p {
      MulOrder(q + 1, p, a);
    }
  }

  // ----- The mask -----

  /** align_to on 64-bit words: the complement of a - 1 is 2^64 - a. */
  function AlignTo(size: nat, a: nat): nat
    requires 0 < a < SIZE_T
  {
    Combine(AndGate, (size + a - 1) % SIZE_T, SIZE_T - a, 64)
  }

  /** Masking with all but the k lowest bits drops the remainder. */
  lemma {:induction false} MaskDrops(x: nat, k: nat, bits: nat)
    requires k <= bits && x < Pow2(bits)
    ensures Pow2(k) <= Pow2(bits)
    ensures Combine(AndGate, x, Pow2(bits) - Pow2(k), bits) == x - x % Pow2(k)
    decreases bits
  {
    hide Combine;
    if bits == 0 {
      NoBits(x, Pow2(bits) - Pow2(k), bits);
    } else if k == 0 {
      MaskDrops(x / 2, 0, bits - 1);
      MaskOdd(x, Pow2(bits - 1), bits);
    } else {
      MaskDrops(x / 2, k - 1, bits - 1);
      MaskEven(x, Pow2(bits - 1), Pow2(k - 1), bits);
    }
  }

  lemma MaskOdd(x: nat, p: nat, bits: nat)
    requires bits > 0 && p > 0 && Combine(AndGate, x / 2, p - 1, bits - 1) == x / 2 - (x / 2) % 1
    ensures Combine(AndGate, x, 2 * p - 1, bits) == x - x % 1
  {
    hide Combine, GateBit;
    CombineStep(x, 2 * p - 1, bits);
    OddMask(x, p);
  }

  lemma MaskEven(x: nat, p: nat, q: nat, bits: nat)
    requires bits > 0 && 0 < q <= p && Combine(AndGate, x / 2, p - q, bits - 1) == x / 2 - (x / 2) % q
    ensures Combine(AndGate, x, 2 * p - 2 * q, bits) == x - x % (2 * q)
  {
    hide Combine, GateBit;
    CombineStep(x, 2 * (p - q), bits);
    EvenMask(x, p - q);
    HalfMod(x, q);
  }

  lemma OddMask(x: nat, p: nat)
    requires p > 0
    ensures (2 * p - 1) / 2 == p - 1 && GateBit(AndGate, x % 2, (2 * p - 1) % 2) == x % 2
    ensures (x / 2) % 1 == 0 && x % 1 == 0 && x % 2 + 2 * (x / 2) == x
  {
  }

  lemma EvenMask(x: nat, p: nat)
    ensures (2 * p) / 2 == p && GateBit(AndGate, x % 2, (2 * p) % 2) == 0
    ensures x == 2 * (x / 2) + x % 2
  {
  }

  lemma CombineStep(x: nat, m: nat, bits: nat)
    requires bits > 0
    ensures Combine(AndGate, x, m, bits) == GateBit(AndGate, x % 2, m % 2)
            + 2 * Combine(AndGate, x / 2, m / 2, bits - 1)
  {
  }

  lemma NoBits(x: nat, m: nat, bits: nat)
    requires bits == 0
    ensures Combine(AndGate, x, m, bits) == 0
  {
  }

  lemma HalfMod(x: nat, p: nat)
    requires p > 0
    ensures x % (2 * p) == 2 * ((x / 2) % p) + x % 2
  {
    var y, b, d := x / 2, x % 2, 2 * p;
    DivisionParts(y, p);
    DivisionParts(x, d);
    var q, r := y / p, y % p;
    TwiceParts(q, r, p, b, x);
    SameRemainder(q, 2 * r + b, x / d, x % d, d);
  }

  lemma TwiceParts(q: nat, r: nat, p: nat, b: nat, x: nat)
    requires x == 2 * (q * p + r) + b && r < p && b < 2
    ensures q * (2 * p) + (2 * r + b) == x && 2 * r + b < 2 * p
  {
  }

  lemma Pow2Of64(n: nat)
    requires n == 64
    ensures Pow2(n) == SIZE_T
  {
    Pow2Of32(n - 32);
    Pow2Step(n - 8);
    Pow2Step(n - 16);
    Pow2Step(n - 24);
    Pow2Step(n - 32);
  }

  /** The mask rounds up for every power of two when the sum does not wrap. */
  lemma MaskRoundsUp(size: nat, k: nat, bits: nat)
    requires bits == 64 && k < bits && size + Pow2(k) - 1 < SIZE_T
    ensures Pow2(k) < SIZE_T && AlignTo(size, Pow2(k)) == RoundUp(size, Pow2(k))
  {
    hide Combine, Pow2;
    var a := Pow2(k);
    var x := size + a - 1;
    Pow2Of64(bits);
    Pow2Grows(k, bits);
    MaskDrops(x, k, bits);
    DivisionParts(x, a);
  }

  /** A number and its complement have no bit in common. */
  lemma {:induction false} AndComplement(x: nat, p: nat, bits: nat)
    requires p == Pow2(bits) && x < p
    ensures Combine(AndGate, x, p - 1 - x, bits) == 0
    decreases bits
  {
    hide Combine, GateBit;
    if bits == 0 {
      NoBits(x, p - 1 - x, bits);
    } else {
      Complement(x, p / 2);
      CombineStep(x, p - 1 - x, bits);
      AndComplement(x / 2, p / 2, bits - 1);
    }
  }

  lemma Complement(x: nat, p: nat)
    requires x < 2 * p
    ensures (2 * p - 1 - x) / 2 == p - 1 - x / 2 >= 0 && GateBit(AndGate, x % 2, (2 * p - 1 - x) % 2) == 0
  {
  }

  /** The complement of x - 1 keeps only the lowest bit of x. */
  lemma {:induction false} LowestBit(x: nat, p: nat, bits: nat)
    requires p == Pow2(bits) && 0 < x < p
    ensures IsPowerOfTwo(Combine(AndGate, x, p - x, bits))
    decreases bits
  {
    hide Combine, GateBit;
    var half := p / 2;
    CombineStep(x, p - x, bits);
    Negative(x, half);
    if x % 2 == 0 {
      LowestBit(x / 2, half, bits - 1);
      var k: nat :| Pow2(k) == Combine(AndGate, x / 2, half - x / 2, bits - 1);
      assert Pow2(k + 1) == Combine(AndGate, x, p - x, bits);
    } else {
      AndComplement(x / 2, half, bits - 1);
      assert Pow2(0) == Combine(AndGate, x, p - x, bits);
    }
  }

  lemma Negative(x: nat, p: nat)
    requires 0 < x < 2 * p
    ensures GateBit(AndGate, x % 2, (2 * p - x) % 2) == x % 2
    ensures (2 * p - x) / 2 == p - x / 2 - x % 2 >= 0 && x / 2 < p
  {
  }

  /** The mask rounds every size up exactly when the alignment is a power of two:
      size 1 goes to the lowest bit of the alignment instead of the alignment. */
  lemma MaskNeedsPowerOfTwo(a: nat, bits: nat)
    requires bits == 64 && 0 < a < SIZE_T
    ensures (forall n: nat :: n + a - 1 < SIZE_T ==> AlignTo(n, a) == RoundUp(n, a)) <==> IsPowerOfTwo(a)
  {
    hide Combine, Pow2;
    Pow2Of64(bits);
    if IsPowerOfTwo(a) {
      var k: nat :| Pow2(k) == a;
      ExponentBelow(k, bits);
      forall n: nat | n + a - 1 < SIZE_T
        ensures AlignTo(n, a) == RoundUp(n, a)
      {
        MaskRoundsUp(n, k, bits);
      }
    } else {
      LowestBit(a, SIZE_T, bits);
      DivisionParts(a, a);
      assert AlignTo(1, a) != RoundUp(1, a);
    }
  }

  lemma ExponentBelow(k: nat, n: nat)
    requires Pow2(k) < Pow2(n)
    ensures k < n
  {
    if k > n {
      Pow2Grows(n, k);
    }
  }

  // ----- Layouts -----

  datatype Shape = Shape(size: nat, alignment: nat)

  ghost predicate Good(s: Shape) { s.alignment > 0 && IsPowerOfTwo(s.alignment) }

  ghost predicate AllGood(ms: seq<Shape>) { forall i :: 0 <= i < |ms| ==> Good(ms[i]) }

  /** The first byte after the members. */
  function End(ms: seq<Shape>): nat
    requires AllGood(ms)
  {
    if ms == [] then 0
    else RoundUp(End(ms[..|ms| - 1]), ms[|ms| - 1].alignment) + ms[|ms| - 1].size
  }

  function Offset(ms: seq<Shape>, i: nat): nat
    requires AllGood(ms) && i < |ms|
  {
    RoundUp(End(ms[..i]), ms[i].alignment)
  }

  function MaxAlignment(ms: seq<Shape>): (a: nat)
    requires AllGood(ms)
    ensures a > 0 && IsPowerOfTwo(a)
    ensures forall i :: 0 <= i < |ms| ==> ms[i].alignment <= a
  {
    assert Pow2(0) == 1;
    if ms == [] then 1
    else
      var a := MaxAlignment(ms[..|ms| - 1]);
      if ms[|ms| - 1].alignment > a then ms[|ms| - 1].alignment else a
  }

  function StructSize(ms: seq<Shape>): nat
    requires AllGood(ms)
  {
    RoundUp(End(ms), MaxAlignment(ms))
  }

  lemma {:induction false} EndGrows(ms: seq<Shape>, i: nat)
    requires AllGood(ms) && i <= |ms|
    ensures End(ms[..i]) <= End(ms)
    ensures i < |ms| ==> Offset(ms, i) + ms[i].size <= End(ms)
    decreases ms
  {
    if i == |ms| {
      assert ms[..i] == ms;
    } else {
      var n := |ms| - 1;
      RoundUpIsLeast(End(ms[..n]), ms[n].alignment, 0);
      if i < n {
        assert ms[..n][..i] == ms[..i];
        EndGrows(ms[..n], i);
      }
    }
  }

  /** Offsets are multiples of the alignment, come after every earlier member,
      and are the least such. */
  lemma OffsetsAreLeast(ms: seq<Shape>, i: nat, o: nat)
    requires AllGood(ms) && i < |ms|
    ensures Offset(ms, i) % ms[i].alignment == 0
    ensures forall j :: 0 <= j < i ==> Offset(ms, j) + ms[j].size <= Offset(ms, i)
    ensures o % ms[i].alignment == 0 && o >= End(ms[..i]) ==> o >= Offset(ms, i)
  {
    RoundUpIsLeast(End(ms[..i]), ms[i].alignment, o);
    forall j | 0 <= j < i
      ensures Offset(ms, j) + ms[j].size <= Offset(ms, i)
    {
      assert ms[..i][..j] == ms[..j];
      EndGrows(ms[..i], j);
    }
  }

  /** The size is the least multiple of the largest alignment that covers all
      members. */
  lemma StructSizeIsLeast(ms: seq<Shape>, s: nat)
    requires AllGood(ms)
    ensures StructSize(ms) % MaxAlignment(ms) == 0
    ensures forall i :: 0 <= i < |ms| ==> Offset(ms, i) + ms[i].size <= StructSize(ms)
    ensures s % MaxAlignment(ms) == 0 && s >= End(ms) ==> s >= StructSize(ms)
  {
    RoundUpIsLeast(End(ms), MaxAlignment(ms), s);
    forall i | 0 <= i < |ms|
      ensures Offset(ms, i) + ms[i].size <= StructSize(ms)
    {
      EndGrows(ms, i);
    }
  }

  /** Adding a member never moves the ones before it. */
  lemma AddingKeepsOffsets(ms: seq<Shape>, m: Shape, i: nat)
    requires AllGood(ms) && Good(m) && i < |ms|
    ensures AllGood(ms + [m]) && Offset(ms + [m], i) == Offset(ms, i)
  {
    assert (ms + [m])[..i] == ms[..i];
  }

  lemma OffsetsStay(ms: seq<Shape>, m: Shape)
    requires AllGood(ms) && Good(m)
    ensures AllGood(ms + [m]) && forall i :: 0 <= i < |ms| ==> Offset(ms + [m], i) == Offset(ms, i)
  {
    hide Offset;
    forall i | 0 <= i < |ms|
      ensures Offset(ms + [m], i) == Offset(ms, i)
    {
      AddingKeepsOffsets(ms, m, i);
    }
  }

  /** Of two powers of two the smaller divides the larger. */
  lemma {:induction false} PowersDivide(j: nat, k: nat)
    requires j <= k
    ensures Pow2(k) % Pow2(j) == 0
    decreases k
  {
    if j < k {
      PowersDivide(j, k - 1);
      DivisionParts(Pow2(k - 1), Pow2(j));
      var q := Pow2(k - 1) / Pow2(j);
      assert Pow2(k) == 2 * (q * Pow2(j)) == (2 * q) * Pow2(j);
      MultipleMod(2 * q, Pow2(j));
    } else {
      MultipleMod(1, Pow2(j));
    }
  }

  /** A struct can be a member or an array element itself: its alignment is a
      power of two that every member's alignment divides, and its size is a
      multiple of it. */
  lemma StructsNest(ms: seq<Shape>, i: nat)
    requires AllGood(ms)
    ensures Good(Shape(StructSize(ms), MaxAlignment(ms)))
    ensures StructSize(ms) % MaxAlignment(ms) == 0
    ensures i < |ms| ==> MaxAlignment(ms) % ms[i].alignment == 0
  {
    StructSizeIsLeast(ms, 0);
    if i < |ms| {
      var j: nat :| Pow2(j) == ms[i].alignment;
      var k: nat :| Pow2(k) == MaxAlignment(ms);
      if k < j {
        Pow2Grows(k, j);
      }
      PowersDivide(j, k);
    }
  }

  // ----- Unions -----

  function LargestSize(ms: seq<Shape>): (n: nat)
    ensures forall i :: 0 <= i < |ms| ==> ms[i].size <= n
    ensures n == 0 || exists i :: 0 <= i < |ms| && ms[i].size == n
  {
    if ms == [] then 0
    else
      var n := LargestSize(ms[..|ms| - 1]);
      assert forall i :: 0 <= i < |ms| - 1 ==> ms[..|ms| - 1][i] == ms[i];
      if ms[|ms| - 1].size > n then ms[|ms| - 1].size else n
  }

  function UnionSize(ms: seq<Shape>): nat
    requires AllGood(ms)
  {
    RoundUp(LargestSize(ms), MaxAlignment(ms))
  }

  /** All members start at 0 and fit, and nothing smaller would do. */
  lemma UnionSizeIsLeast(ms: seq<Shape>, s: nat)
    requires AllGood(ms)
    ensures UnionSize(ms) % MaxAlignment(ms) == 0
    ensures forall i :: 0 <= i < |ms| ==> ms[i].size <= UnionSize(ms)
    ensures s % MaxAlignment(ms) == 0 && (forall i :: 0 <= i < |ms| ==> ms[i].size <= s) ==> s >= UnionSize(ms)
  {
    RoundUpIsLeast(LargestSize(ms), MaxAlignment(ms), s);
  }

  // ----- The symbols -----

  /** Size and alignment are known when the member is made, its offset only when
      the struct is laid out. */
  class MemberSymbol {
    const name: string
    const size: nat
    const alignment: nat
    var offset: nat

    constructor (name: string, size: nat, alignment: nat)
      ensures this.name == name && this.size == size && this.alignment == alignment && offset == 0
    {
      this.name, this.size, this.alignment, offset := name, size, alignment, 0;
    }
  }

  function ShapesOf(ms: seq<MemberSymbol>): (r: seq<Shape>)
    ensures |r| == |ms| && forall i :: 0 <= i < |ms| ==> r[i] == Shape(ms[i].size, ms[i].alignment)
  {
    if ms == [] then []
    else ShapesOf(ms[..|ms| - 1]) + [Shape(ms[|ms| - 1].size, ms[|ms| - 1].alignment)]
  }

  /** No sum on the way wraps around. */
  ghost predicate Fits(ms: seq<Shape>) {
    AllGood(ms) && End(ms) + MaxAlignment(ms) <= SIZE_T && LargestSize(ms) + MaxAlignment(ms) <= SIZE_T
  }

  /** align_to rounds up where the layout calls it. */
  lemma AlignsUp(n: nat, a: nat)
    requires a > 0 && IsPowerOfTwo(a) && n + a <= SIZE_T
    ensures a < SIZE_T || n == 0
    ensures a < SIZE_T ==> AlignTo(n, a) == RoundUp(n, a)
  {
    var k: nat :| Pow2(k) == a;
    if a < SIZE_T {
      Bits64();
      if k >= 64 {
        if k > 64 {
          Pow2Grows(64, k);
        }
      } else {
        MaskRoundsUp(n, k, 64);
      }
    }
  }

  lemma Bits64()
    ensures Pow2(64) == SIZE_T
  {
    Pow2Of64(64);
  }

  /** One round of the layout loop. */
  lemma StructStep(ss: seq<Shape>, i: nat)
    requires Fits(ss) && MaxAlignment(ss) < SIZE_T && i < |ss|
    ensures 0 < ss[i].alignment < SIZE_T && AlignTo(End(ss[..i]), ss[i].alignment) == Offset(ss, i)
    ensures End(ss[..i + 1]) == Offset(ss, i) + ss[i].size
    ensures
      MaxAlignment(ss[..i + 1])
      == if ss[i].alignment > MaxAlignment(ss[..i]) then ss[i].alignment else MaxAlignment(ss[..i])
    ensures LargestSize(ss[..i + 1]) == if ss[i].size > LargestSize(ss[..i]) then ss[i].size else LargestSize(ss[..i])
  {
    assert ss[..i + 1][..i] == ss[..i] && ss[..i + 1][i] == ss[i];
    EndGrows(ss, i);
    AlignsUp(End(ss[..i]), ss[i].alignment);
  }

  /** The sizes at the end of the loops. */
  lemma LastStep(ss: seq<Shape>)
    requires Fits(ss) && MaxAlignment(ss) < SIZE_T
    ensures AlignTo(End(ss), MaxAlignment(ss)) == StructSize(ss)
    ensures AlignTo(LargestSize(ss), MaxAlignment(ss)) == UnionSize(ss)
    ensures ss[..|ss|] == ss
    ensures End(ss[..0]) == LargestSize(ss[..0]) == 0 && MaxAlignment(ss[..0]) == 1
  {
    assert ss[..|ss|] == ss;
    AlignsUp(End(ss), MaxAlignment(ss));
    AlignsUp(LargestSize(ss), MaxAlignment(ss));
  }

  class StructSymbol {
    const isUnion: bool
    var members: seq<MemberSymbol>
    var totalSize: nat
    var maxAlignment: nat

    ghost function Shapes(): seq<Shape>
      reads this
    {
      ShapesOf(members)
    }

    ghost predicate Valid()
      reads this
    {
      && Fits(Shapes()) && MaxAlignment(Shapes()) < SIZE_T
      && forall i, j :: 0 <= i < j < |members| ==> members[i] != members[j]
    }

    /** The sizes and offsets are those of the members. */
    ghost predicate LaidOut()
      requires Valid()
      reads this, members
    {
      && maxAlignment == MaxAlignment(Shapes())
      && totalSize == (if isUnion then UnionSize(Shapes()) else StructSize(Shapes()))
      && forall i :: 0 <= i < |members| ==> members[i].offset == if isUnion then 0 else Offset(Shapes(), i)
    }

    constructor (isUnion: bool)
      ensures Valid() && members == [] && this.isUnion == isUnion && LaidOut()
    {
      this.isUnion := isUnion;
      members, totalSize, maxAlignment := [], 0, 1;
      new;
      assert RoundUp(0, 1) == 0;
    }

    /** calculate_struct_size: one pass that sets the offsets as it goes. */
    method CalculateStructSize()
      requires Valid() && !isUnion
      modifies this`totalSize, this`maxAlignment, members
      ensures Valid() && LaidOut()
    {
      hide ShapesOf, End, MaxAlignment, Offset, StructSize, AlignTo, LargestSize, Good;
      ghost var ss := Shapes();
      LastStep(ss);
      var total, max := 0, 1;
      var i := 0;
      while i < |members|
        invariant 0 <= i <= |members| && members == old(members) && Valid() && ss == Shapes()
        invariant total == End(ss[..i]) && max == MaxAlignment(ss[..i])
        invariant forall j :: 0 <= j < i ==> members[j].offset == Offset(ss, j)
        modifies members
      {
        var m := members[i];
        StructStep(ss, i);
        if m.alignment > max {
          max := m.alignment;
        }
        total := AlignTo(total, m.alignment);
        m.offset := total;
        total := total + m.size;
        i := i + 1;
      }
      totalSize := AlignTo(total, max);
      maxAlignment := max;
    }

    /** calculate_union_size: every member starts at 0. */
    method CalculateUnionSize()
      requires Valid() && isUnion
      modifies this`totalSize, this`maxAlignment, members
      ensures Valid() && LaidOut()
    {
      hide ShapesOf, End, MaxAlignment, Offset, UnionSize, AlignTo, LargestSize, Good;
      ghost var ss := Shapes();
      LastStep(ss);
      var size, max := 0, 1;
      var i := 0;
      while i < |members|
        invariant 0 <= i <= |members| && members == old(members) && Valid() && ss == Shapes()
        invariant size == LargestSize(ss[..i]) && max == MaxAlignment(ss[..i])
        invariant forall j :: 0 <= j < i ==> members[j].offset == 0
        modifies members
      {
        var m := members[i];
        StructStep(ss, i);
        if m.size > size {
          size := m.size;
        }
        if m.alignment > max {
          max := m.alignment;
        }
        m.offset := 0;
        i := i + 1;
      }
      totalSize := AlignTo(size, max);
      maxAlignment := max;
    }

    /** add_struct_member: the layout is redone, and in a struct the earlier
        members stay where they were. */
    method AddMember(m: MemberSymbol)
      requires Valid() && LaidOut() && m !in members && Good(Shape(m.size, m.alignment))
      requires Fits(Shapes() + [Shape(m.size, m.alignment)])
      requires MaxAlignment(Shapes() + [Shape(m.size, m.alignment)]) < SIZE_T
      modifies this, members, m
      ensures Valid() && LaidOut() && members == old(members) + [m]
      ensures forall i :: 0 <= i < |old(members)| ==> old(members)[i].offset == old(members[i].offset)
    {
      hide End, MaxAlignment, Offset, UnionSize, StructSize, LargestSize;
      ghost var ss := Shapes();
      members := members + [m];
      assert members[..|members| - 1] == old(members);
      assert Shapes() == ss + [Shape(m.size, m.alignment)];
      if isUnion {
        CalculateUnionSize();
      } else {
        CalculateStructSize();
        OffsetsStay(ss, Shape(m.size, m.alignment));
      }
    }
  }

  // ----- Sizes of types -----

  datatype BaseType =
    | CharT | ShortT | IntT | LongT | FloatT | DoubleT | BoolT | VoidT | EnumT
    | StructT(members: seq<Shape>)
    | UnionT(members: seq<Shape>)

  /** A one-dimensional array has a literal length, or none. */
  datatype TypeInfo = TypeInfo(base: BaseType, pointerLevel: nat, isArray: bool, length: Option<nat>)

  const POINTER_SIZE := 8

  function BasicSize(b: BaseType): nat
    requires !b.StructT? && !b.UnionT?
  {
    match b
    case CharT => 1
    case ShortT => 2
    case IntT => 4
    case LongT => 8
    case FloatT => 4
    case DoubleT => 8
    case BoolT => 1
    case VoidT => 0
    case EnumT => 4
  }

  ghost predicate GoodType(t: TypeInfo) {
    (t.base.StructT? ==> AllGood(t.base.members)) && (t.base.UnionT? ==> AllGood(t.base.members))
  }

  function BaseSize(b: BaseType): nat
    requires b.StructT? || b.UnionT? ==> AllGood(b.members)
  {
    if b.StructT? then StructSize(b.members) else if b.UnionT? then UnionSize(b.members) else BasicSize(b)
  }

  /** calculate_type_size: pointers, structs, unions and enums are looked at
      before arrays. */
  function TypeSize(t: TypeInfo): nat
    requires GoodType(t)
  {
    if t.pointerLevel > 0 then POINTER_SIZE
    else if t.base.StructT? || t.base.UnionT? || t.base.EnumT? then BaseSize(t.base)
    else if t.isArray then
      if t.length.Some? then BaseSize(t.base) * t.length.value else POINTER_SIZE
    else BaseSize(t.base)
  }

  /** C's size of the type; an array of unknown length counts as a pointer. */
  function TrueSize(t: TypeInfo): nat
    requires GoodType(t)
  {
    var element := if t.pointerLevel > 0 then POINTER_SIZE else BaseSize(t.base);
    if !t.isArray then element
    else if t.length.None? then POINTER_SIZE
    else element * t.length.value
  }

  /** The size is right exactly when the type is not an array of pointers,
      structs, unions or enums, up to arrays whose size is that of one element
      anyway. */
  lemma TypeSizeRight(t: TypeInfo)
    requires GoodType(t)
    ensures
      var element := if t.pointerLevel > 0 then POINTER_SIZE else BaseSize(t.base);
      TypeSize(t) == TrueSize(t) <==>
      || !t.isArray
      || (t.pointerLevel == 0 && !t.base.StructT? && !t.base.UnionT? && !t.base.EnumT?)
      || (t.length.Some? && (t.length.value == 1 || element == 0))
      || (t.length.None? && element == POINTER_SIZE)
  {
    var element := if t.pointerLevel > 0 then POINTER_SIZE else BaseSize(t.base);
    if t.length.Some? {
      ProductIsFactor(element, t.length.value);
    }
  }

  lemma ProductIsFactor(x: nat, n: nat)
    ensures x * n == x <==> n == 1 || x == 0
  {
    if n > 1 {
      MulOrder(2, n, x);
    } else if n == 0 {
      assert x * n == 0;
    } else {
      assert x * n == x;
    }
  }
}
