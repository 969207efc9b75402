/** How names are printed, and why two of them never come out the same. */
module Names {
  import opened Ir

  // ----- Decimal numbers -----

  predicate IsDigit(c: char) { '0' <= c <= '9' }

  function DigitChar(n: nat): (c: char)
    requires n < 10
    ensures IsDigit(c)
  {
    '0' + n as char
  }

  /** `%d` of a number that is not negative. */
  function Decimal(n: nat): (s: string)
    ensures s != [] && forall i :: 0 <= i < |s| ==> IsDigit(s[i])
  {
    if n < 10 then [DigitChar(n)] else Decimal(n / 10) + [DigitChar(n % 10)]
  }

  function DigitValue(c: char): nat
    requires IsDigit(c)
  {
    c as nat - '0' as nat
  }

  function ValueOf(s: string): nat
    requires forall i :: 0 <= i < |s| ==> IsDigit(s[i])
  {
    if s == [] then 0 else 10 * ValueOf(s[..|s| - 1]) + DigitValue(s[|s| - 1])
  }

  /** Reading a printed number back. */
  lemma {:induction false} DecimalRoundTrip(n: nat)
    ensures ValueOf(Decimal(n)) == n
    decreases n
  {
    var s := Decimal(n);
    if n < 10 {
      assert s[..0] == [];
    } else {
      assert s[..|s| - 1] == Decimal(n / 10);
      DecimalRoundTrip(n / 10);
    }
  }

  /** How a positive number is printed: digits, the first of them no 0. */
  predicate IsNumeral(s: string) {
    s != [] && s[0] != '0' && forall i :: 0 <= i < |s| ==> IsDigit(s[i])
  }

  lemma {:induction false} NumeralIsDecimal(s: string)
    requires IsNumeral(s)
    ensures ValueOf(s) > 0 && Decimal(ValueOf(s)) == s
    decreases |s|
  {
    var front, last := s[..|s| - 1], DigitValue(s[|s| - 1]);
    if front == [] {
      assert s == [DigitChar(last)] && ValueOf(front) == 0;
    } else {
      NumeralIsDecimal(front);
      var n := 10 * ValueOf(front) + last;
      assert n / 10 == ValueOf(front) && n % 10 == last;
      assert s == front + [DigitChar(last)];
    }
  }

  lemma {:induction false} DecimalIsNumeral(n: nat)
    requires n > 0
    ensures IsNumeral(Decimal(n))
    decreases n
  {
    if n >= 10 {
      DecimalIsNumeral(n / 10);
    }
  }

  function Pow10(k: nat): nat { if k == 0 then 1 else 10 * Pow10(k - 1) }

  lemma {:induction false} DecimalLength(n: nat, k: nat)
    requires k > 0 && n < Pow10(k)
    ensures |Decimal(n)| <= k
    decreases k
  {
    if n >= 10 {
      DecimalLength(n / 10, k - 1);
    }
  }

  // ----- Printed names -----

  predicate IsIdentifier(s: string) {
    s != [] && !IsDigit(s[0]) && forall i :: 0 <= i < |s| ==> s[i] != '.'
  }

  /** generate_unique_name. */
  function PrintUnique(u: UniqueName): string {
    match u
    case InFunction(f, b, l, n) => f + "." + b + "." + Decimal(l) + "." + Decimal(n)
    case AtFileScope(b, n) => "global." + b + "." + Decimal(n)
  }

  const NAME_BUFFER := 256

  /** snprintf into the buffer keeps what fits beside the final NUL. */
  function Truncated(s: string): string {
    if |s| < NAME_BUFFER then s else s[..NAME_BUFFER - 1]
  }

  predicate OfIdentifiers(u: UniqueName) { IsIdentifier(u.base) && (u.InFunction? ==> IsIdentifier(u.fn)) }

  predicate GoodName(u: UniqueName) { OfIdentifiers(u) && |PrintUnique(u)| < NAME_BUFFER }

  const INT_MAX := 0x7FFF_FFFF

  /** What is left of the buffer beside the dots and two numbers. */
  const NAME_ROOM := 232

  /** A variable's name, and room for it in the names that function f gives. */
  predicate Fits(f: string, x: string) { IsIdentifier(x) && |f| + |x| <= NAME_ROOM }

  /** A name made from identifiers short enough, with numbers that an int holds,
      is not cut. */
  lemma ShortNameGood(u: UniqueName)
    requires u.uid <= INT_MAX
    requires u.InFunction? ==> IsIdentifier(u.fn) && Fits(u.fn, u.base) && u.level <= INT_MAX
    requires u.AtFileScope? ==> Fits("", u.base)
    ensures GoodName(u)
  {
    hide Decimal, Pow10;
    TenDigits(u.uid);
    if u.InFunction? {
      TenDigits(u.level);
    }
  }

  /** With one byte more the largest numbers leave no room. */
  lemma RoomIsLargest(f: string, x: string)
    requires |f| + |x| == 233
    ensures |PrintUnique(InFunction(f, x, 0x7FFF_FFFF, 0x7FFF_FFFF))| >= NAME_BUFFER
    ensures !Fits(f, x)
  {
    hide Decimal;
    AtLeastTenDigits(INT_MAX);
  }

  lemma AtLeastTenDigits(n: nat)
    requires n >= 1_000_000_000
    ensures |Decimal(n)| >= 10
  {
    assert Pow10(3) == 1000;
    assert Pow10(6) == 1000 * Pow10(3);
    assert Pow10(9) == 1000 * Pow10(6);
    DecimalAtLeast(n, 9);
  }

  lemma {:induction false} DecimalAtLeast(n: nat, k: nat)
    requires n >= Pow10(k)
    ensures |Decimal(n)| > k
    decreases k
  {
    if k > 0 {
      DecimalAtLeast(n / 10, k - 1);
    }
  }

  predicate IsLetter(c: char) { 'a' <= c <= 'z' || 'A' <= c <= 'Z' || c == '_' }

  /** Every identifier of C is one here. */
  lemma IdentifiersOfC(f: string, x: string)
    requires x != [] && IsLetter(x[0]) && forall i :: 0 <= i < |x| ==> IsLetter(x[i]) || IsDigit(x[i])
    ensures IsIdentifier(x) && (|f| + |x| <= 232 ==> Fits(f, x))
  {
  }

  /** A name that leaves a byte of the buffer free; one that is cut does not. */
  predicate ShortName(u: UniqueName) { OfIdentifiers(u) && |PrintUnique(u)| < NAME_BUFFER - 1 }

  lemma FileNameShort(u: UniqueName)
    requires u.uid <= INT_MAX
    requires u.InFunction? ==> IsIdentifier(u.fn) && Fits(u.fn, u.base) && u.level == 0
    requires u.AtFileScope? ==> Fits("", u.base)
    ensures ShortName(u)
  {
    hide Pow10;
    TenDigits(u.uid);
  }

  lemma TenDigits(n: nat)
    requires n <= INT_MAX
    ensures |Decimal(n)| <= 10
  {
    assert Pow10(3) == 1000;
    assert Pow10(6) == 1000 * Pow10(3);
    assert Pow10(9) == 1000 * Pow10(6);
    DecimalLength(n, 10);
  }

  /** The names a function's code uses after `%`: temporaries, labels, slots and
      incoming parameters. */
  datatype LocalName = TempName(t: nat) | LabelName(l: Label) | SlotName(s: Slot) | IncomingName(p: string)

  function PrintLocal(x: LocalName): string {
    match x
    case TempName(t) => "t" + Decimal(t)
    case LabelName(l) => l.prefix + Decimal(l.id)
    case SlotName(Global(u)) => Truncated(PrintUnique(u))
    case SlotName(Local(u)) => Truncated(PrintUnique(u))
    case SlotName(ParamAddr(u)) => Truncated(PrintUnique(u)) + ".addr"
    case SlotName(TempAddr(t)) => "t" + Decimal(if t < 0 then 0 else t) + ".addr"
    case IncomingName(p) => p
  }

  /** What generate_label is called with. */
  const LABEL_PREFIXES := {
    "logical_left", "logical_right", "logical_end", "cond_true", "cond_false", "cond_end",
    "if_then", "if_else", "if_end", "while_cond", "while_body", "while_end",
    "do_body", "do_cond", "do_end", "for_cond", "for_body", "for_update", "for_end"}

  predicate IsLabelPrefix(s: string) { s in LABEL_PREFIXES }

  /** What is printed in front of a number. */
  predicate IsStem(s: string) { s == "t" || IsLabelPrefix(s) }

  lemma StemShape(s: string)
    requires IsStem(s)
    ensures s != [] && !IsDigit(s[|s| - 1]) && DotFree(s) && (IsLabelPrefix(s) ==> s != "t")
  {
  }

  /** A stem and a positive number. */
  predicate GeneratedShape(p: string) {
    exists k :: 0 < k < |p| && IsStem(p[..k]) && IsNumeral(p[k..])
  }

  predicate GoodLocal(x: LocalName) {
    match x
    case TempName(t) => t > 0
    case LabelName(l) => IsLabelPrefix(l.prefix) && l.id > 0
    case SlotName(Global(_)) => false
    case SlotName(Local(u)) => GoodName(u)
    case SlotName(ParamAddr(u)) => GoodName(u)
    case SlotName(TempAddr(t)) => t > 0
    case IncomingName(p) => IsIdentifier(p) && !GeneratedShape(p)
  }

  /** How names look. */
  lemma PrintedForms()
    ensures PrintLocal(SlotName(Local(InFunction("main", "x", 2, 7)))) == "main.x.2.7"
    ensures PrintLocal(SlotName(ParamAddr(InFunction("f", "a", 1, 3)))) == "f.a.1.3.addr"
    ensures PrintLocal(SlotName(Global(AtFileScope("g", 1)))) == "global.g.1"
    ensures PrintLocal(TempName(4)) == "t4" && PrintLocal(SlotName(TempAddr(5))) == "t5.addr"
    ensures PrintLocal(LabelName(Label("if_end", 6))) == "if_end6"
  {
    hide Decimal;
    Digits();
  }

  lemma Digits()
    ensures Decimal(1) == "1" && Decimal(2) == "2" && Decimal(3) == "3" && Decimal(4) == "4"
    ensures Decimal(5) == "5" && Decimal(6) == "6" && Decimal(7) == "7"
  {
  }

  // ----- Taking names apart -----

  predicate DotFree(s: string) { forall i :: 0 <= i < |s| ==> s[i] != '.' }

  /** The part after the last dot, and the part before it. */
  lemma LastDot(x: string, p: string, y: string, q: string)
    requires DotFree(p) && DotFree(q)
    requires x + "." + p == y + "." + q
    ensures x == y && p == q
  {
    var s := x + "." + p;
    assert s[|x|] == '.' && s[|y|] == '.';
    assert forall i :: |y| < i < |s| ==> s[i] == q[i - |y| - 1];
    assert forall i :: |x| < i < |s| ==> s[i] == p[i - |x| - 1];
    assert x == s[..|x|] && y == s[..|y|];
    assert p == s[|x| + 1..] && q == s[|y| + 1..];
  }

  /** A name in front of a number, when it does not end in a digit itself. */
  lemma {:induction false} NumberAtEnd(a: string, m: nat, b: string, n: nat)
    requires a != [] && b != [] && !IsDigit(a[|a| - 1]) && !IsDigit(b[|b| - 1])
    requires a + Decimal(m) == b + Decimal(n)
    ensures a == b && m == n
  {
    var s := a + Decimal(m);
    assert forall i :: |a| <= i < |s| ==> s[i] == Decimal(m)[i - |a|];
    assert forall i :: |b| <= i < |s| ==> s[i] == Decimal(n)[i - |b|];
    assert s[|a| - 1] == a[|a| - 1] && s[|b| - 1] == b[|b| - 1];
    assert a == s[..|a|] && b == s[..|b|];
    assert Decimal(m) == s[|a|..] && Decimal(n) == s[|b|..];
    DecimalRoundTrip(m);
    DecimalRoundTrip(n);
  }

  lemma SameNumber(m: nat, n: nat)
    requires Decimal(m) == Decimal(n)
    ensures m == n
  {
    DecimalRoundTrip(m);
    DecimalRoundTrip(n);
  }

  lemma DecimalDotFree(n: nat)
    ensures DotFree(Decimal(n))
  {
  }

  lemma {:induction false} UniqueInjective(u: UniqueName, v: UniqueName)
    requires OfIdentifiers(u) && OfIdentifiers(v) && PrintUnique(u) == PrintUnique(v)
    ensures u == v
  {
    var pu, pv := BeforeNumber(u), BeforeNumber(v);
    LastDot(pu, Decimal(u.uid), pv, Decimal(v.uid));
    SameNumber(u.uid, v.uid);
    if u.InFunction? && v.InFunction? {
      LastDot(u.fn + "." + u.base, Decimal(u.level), v.fn + "." + v.base, Decimal(v.level));
      SameNumber(u.level, v.level);
      LastDot(u.fn, u.base, v.fn, v.base);
    } else if u.InFunction? {
      FileScopeDiffers(u, v);
    } else if v.InFunction? {
      FileScopeDiffers(v, u);
    } else {
      assert BeforeNumber(u) == "global" + "." + u.base && BeforeNumber(v) == "global" + "." + v.base;
      LastDot("global", u.base, "global", v.base);
    }
  }

  function BeforeNumber(u: UniqueName): (s: string)
    ensures PrintUnique(u) == s + "." + Decimal(u.uid)
  {
    match u
    case InFunction(f, b, l, n) => f + "." + b + "." + Decimal(l)
    case AtFileScope(b, n) => "global." + b
  }

  /** A level starts with a digit, an identifier does not. */
  lemma FileScopeDiffers(u: UniqueName, v: UniqueName)
    requires u.InFunction? && v.AtFileScope? && OfIdentifiers(u) && OfIdentifiers(v)
    ensures BeforeNumber(u) != BeforeNumber(v)
  {
    if BeforeNumber(u) == BeforeNumber(v) {
      assert "global." + v.base == "global" + "." + v.base;
      LastDot(u.fn + "." + u.base, Decimal(u.level), "global", v.base);
    }
  }

  /** The part of a printed local name after its last dot, if it has one. */
  lemma EndsInNumber(u: UniqueName, s: string)
    ensures PrintUnique(u) != s + ".addr"
  {
    assert s + ".addr" == s + "." + "addr" && !IsDigit("addr"[0]);
    if PrintUnique(u) == s + ".addr" {
      LastDot(BeforeNumber(u), Decimal(u.uid), s, "addr");
    }
  }

  lemma HasDot(u: UniqueName)
    ensures !DotFree(PrintUnique(u))
  {
    var s := PrintUnique(u);
    assert s[|BeforeNumber(u)|] == '.';
  }

  lemma AddrHasDot(s: string)
    ensures !DotFree(s + ".addr")
  {
    assert (s + ".addr")[|s|] == '.';
  }

  /** Names without a dot. */
  predicate IsPlain(x: LocalName) { x.TempName? || x.LabelName? || x.IncomingName? }

  lemma PlainDotFree(x: LocalName)
    requires GoodLocal(x)
    ensures IsPlain(x) <==> DotFree(PrintLocal(x))
  {
    hide Decimal, PrintUnique, IsLabelPrefix, GeneratedShape;
    match x
    case TempName(t) => DecimalDotFree(t);
    case LabelName(l) =>
      StemShape(l.prefix);
      DecimalDotFree(l.id);
    case IncomingName(_) =>
    case SlotName(Local(u)) => HasDot(u);
    case SlotName(ParamAddr(u)) => AddrHasDot(PrintUnique(u));
    case SlotName(TempAddr(t)) => AddrHasDot("t" + Decimal(t));
  }

  lemma PlainInjective(x: LocalName, y: LocalName)
    requires GoodLocal(x) && GoodLocal(y) && IsPlain(x) && IsPlain(y) && PrintLocal(x) == PrintLocal(y)
    ensures x == y
  {
    hide Decimal, IsLabelPrefix, GeneratedShape;
    if x.IncomingName? != y.IncomingName? {
      GeneratedPrints(if x.IncomingName? then y else x);
    } else if !x.IncomingName? {
      StemShape(PrefixOf(x));
      StemShape(PrefixOf(y));
      NumberAtEnd(PrefixOf(x), PlainNumber(x), PrefixOf(y), PlainNumber(y));
    }
  }

  function PrefixOf(x: LocalName): string
    requires x.TempName? || x.LabelName?
  {
    if x.TempName? then "t" else x.l.prefix
  }

  function PlainNumber(x: LocalName): nat
    requires x.TempName? || x.LabelName?
  {
    if x.TempName? then x.t else x.l.id
  }

  lemma GeneratedPrints(x: LocalName)
    requires GoodLocal(x) && (x.TempName? || x.LabelName?)
    ensures GeneratedShape(PrintLocal(x))
  {
    hide IsLabelPrefix;
    var a, d := PrefixOf(x), Decimal(PlainNumber(x));
    StemShape(a);
    DecimalIsNumeral(PlainNumber(x));
    var p := PrintLocal(x);
    assert p == a + d;
    assert p[..|a|] == a && p[|a|..] == d;
  }

  lemma AddrTail(s: string, t: string)
    requires s + ".addr" == t + ".addr"
    ensures s == t
  {
    assert s + ".addr" == s + "." + "addr" && t + ".addr" == t + "." + "addr";
    LastDot(s, "addr", t, "addr");
  }

  lemma SlotInjective(x: LocalName, y: LocalName)
    requires GoodLocal(x) && GoodLocal(y) && x.SlotName? && y.SlotName? && PrintLocal(x) == PrintLocal(y)
    ensures x == y
  {
    match (x.s, y.s) {
      case (Local(u), Local(v)) => UniqueInjective(u, v);
      case (ParamAddr(u), ParamAddr(v)) =>
        AddrTail(PrintUnique(u), PrintUnique(v));
        UniqueInjective(u, v);
      case (TempAddr(i), TempAddr(j)) =>
        AddrTail("t" + Decimal(i), "t" + Decimal(j));
        NumberAtEnd("t", i, "t", j);
      case (Local(u), ParamAddr(v)) => EndsInNumber(u, PrintUnique(v));
      case (ParamAddr(u), Local(v)) => EndsInNumber(v, PrintUnique(u));
      case (Local(u), TempAddr(j)) => EndsInNumber(u, "t" + Decimal(j));
      case (TempAddr(i), Local(v)) => EndsInNumber(v, "t" + Decimal(i));
      case (ParamAddr(u), TempAddr(j)) =>
        AddrTail(PrintUnique(u), "t" + Decimal(j));
        HasDot(u);
        DecimalDotFree(j);
      case (TempAddr(i), ParamAddr(v)) =>
        AddrTail("t" + Decimal(i), PrintUnique(v));
        HasDot(v);
        DecimalDotFree(i);
    }
  }

  /** Two different names of a function never print the same. */
  lemma LocalsPrintDistinct(x: LocalName, y: LocalName)
    requires GoodLocal(x) && GoodLocal(y)
    ensures PrintLocal(x) == PrintLocal(y) <==> x == y
  {
    if PrintLocal(x) == PrintLocal(y) {
      PlainDotFree(x);
      PlainDotFree(y);
      if IsPlain(x) {
        PlainInjective(x, y);
      } else {
        SlotInjective(x, y);
      }
    }
  }

  /** Two variables at file scope never print the same. */
  lemma GlobalsPrintDistinct(u: UniqueName, v: UniqueName)
    requires GoodName(u) && GoodName(v)
    ensures PrintLocal(SlotName(Global(u))) == PrintLocal(SlotName(Global(v))) <==> u == v
  {
    if PrintLocal(SlotName(Global(u))) == PrintLocal(SlotName(Global(v))) {
      UniqueInjective(u, v);
    }
  }

  /** A stem and a number, as the name they make. */
  function Generated(stem: string, n: nat): LocalName {
    if stem == "t" then TempName(n) else LabelName(Label(stem, n))
  }

  lemma GeneratedGood(stem: string, s: string)
    requires IsStem(stem) && IsNumeral(s)
    ensures
      var x := Generated(stem, ValueOf(s));
      GoodLocal(x) && PrintLocal(x) == stem + s
  {
    hide IsLabelPrefix;
    NumeralIsDecimal(s);
  }

  /** The temporary or label that an identifier looks like. */
  ghost function GeneratedName(p: string): (x: LocalName)
    requires GeneratedShape(p)
    ensures GoodLocal(x) && (x.TempName? || x.LabelName?) && PrintLocal(x) == p
  {
    hide IsStem, GoodLocal, PrintLocal;
    var k :| 0 < k < |p| && IsStem(p[..k]) && IsNumeral(p[k..]);
    GeneratedGood(p[..k], p[k..]);
    assert p == p[..k] + p[k..];
    Generated(p[..k], ValueOf(p[k..]))
  }

  /** A parameter prints as something generated exactly when it is a stem and a
      positive number, and then as that temporary or label alone. */
  lemma ParameterClashes(p: string, x: LocalName)
    requires IsIdentifier(p) && GoodLocal(x) && !x.IncomingName?
    ensures PrintLocal(x) == p <==> GeneratedShape(p) && x == GeneratedName(p)
  {
    hide PrintLocal, GeneratedShape;
    if PrintLocal(x) == p {
      PlainDotFree(x);
      GeneratedPrints(x);
      LocalsPrintDistinct(x, GeneratedName(p));
    }
  }

  /** A parameter called t1 is printed as the first temporary is. */
  lemma ParameterMayClash()
    ensures PrintLocal(IncomingName("t1")) == PrintLocal(TempName(1)) && GeneratedShape("t1")
  {
    assert Decimal(1) == "1" && "t1"[..1] == "t" && "t1"[1..] == "1";
  }

  /** Two different names print the same exactly when both fill the buffer and
      have the same beginning. */
  lemma CutNamesClash(u: UniqueName, v: UniqueName)
    requires OfIdentifiers(u) && OfIdentifiers(v) && u != v
    ensures
      var p, q, n := PrintUnique(u), PrintUnique(v), NAME_BUFFER - 1;
      Truncated(p) == Truncated(q) <==> |p| >= n && |q| >= n && p[..n] == q[..n]
  {
    hide PrintUnique, OfIdentifiers;
    if PrintUnique(u) == PrintUnique(v) {
      UniqueInjective(u, v);
      assert false;
    }
  }

  /** Long names are cut and may come out the same. */
  lemma LongNamesMayClash(f: string, m: nat, n: nat)
    requires |f| >= NAME_BUFFER
    ensures Truncated(PrintUnique(InFunction(f, "x", 1, m))) == Truncated(PrintUnique(InFunction(f, "x", 1, n)))
  {
    assert PrintUnique(InFunction(f, "x", 1, m))[..NAME_BUFFER - 1] == f[..NAME_BUFFER - 1];
    assert PrintUnique(InFunction(f, "x", 1, n))[..NAME_BUFFER - 1] == f[..NAME_BUFFER - 1];
  }
}
