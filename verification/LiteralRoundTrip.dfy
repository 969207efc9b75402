/** What the escapes of a literal stand for (ISO/IEC 9899:1999 section 6.4.4.4):
    a writer of literals, and that decoding gives back what was written. */
module LiteralRoundTrip {
  import opened Options
  import opened Bytes
  import opened StringLiterals
  import opened StringConstants

  function Code(c: char): byte
    requires c as int < 256
  {
    c as int
  }

  // ----- Hex digits -----

  const LOWER_DIGITS := "0123456789abcdef"
  const UPPER_DIGITS := "0123456789ABCDEF"

  predicate IsDigitOf(b: byte, v: nat)
    requires v < 16
  {
    b as char == LOWER_DIGITS[v] || b as char == UPPER_DIGITS[v]
  }

  /** The digits in either case, each with its own value. */
  lemma HexDigitMeans(b: byte)
    ensures IsHexDigit(b) <==> exists v: nat :: v < 16 && IsDigitOf(b, v)
    ensures forall v: nat :: v < 16 && IsDigitOf(b, v) ==> IsHexDigit(b) && HexDigitValue(b) == v
  {
    if IsHexDigit(b) {
      assert IsDigitOf(b, HexDigitValue(b));
    }
  }

  function Pow16(n: nat): nat { if n == 0 then 1 else 16 * Pow16(n - 1) }

  /** A run of digits is a number in base 16. */
  lemma {:induction false} HexPlaceValue(a: seq<byte>, b: seq<byte>)
    requires AllHex(a) && AllHex(b)
    ensures HexValue(a + b) == HexValue(a) * Pow16(|b|) + HexValue(b)
    decreases b
  {
    if b == [] {
      assert a + b == a;
    } else {
      var front, last := b[..|b| - 1], b[|b| - 1];
      assert (a + b)[..|a + b| - 1] == a + front && (a + b)[|a + b| - 1] == last;
      HexPlaceValue(a, front);
      Shifted(HexValue(a), Pow16(|front|), HexValue(front));
    }
  }

  lemma Shifted(x: nat, p: nat, y: nat)
    ensures 16 * (x * p + y) == x * (16 * p) + 16 * y
  {
  }

  lemma {:induction false} HexBound(h: seq<byte>)
    requires AllHex(h)
    ensures HexValue(h) < Pow16(|h|)
    decreases h
  {
    if h != [] {
      HexBound(h[..|h| - 1]);
    }
  }

  lemma FifteenDigits(n: nat)
    requires n <= 15
    ensures Pow16(n) <= 0x1000_0000_0000_0000
  {
    assert Pow16(3) == 0x1000 && Pow16(6) == 0x1000 * Pow16(3) && Pow16(9) == 0x1000 * Pow16(6);
    assert Pow16(12) == 0x1000 * Pow16(9) && Pow16(15) == 0x1000 * Pow16(12);
    PowersOf16(n, 15);
  }

  lemma {:induction false} PowersOf16(m: nat, n: nat)
    requires m <= n
    ensures Pow16(m) <= Pow16(n)
    decreases n
  {
    if m < n {
      PowersOf16(m, n - 1);
    }
  }

  /** Up to 15 digits give a byte with the value of the last two of them. */
  lemma HexByteIsLastTwo(h: seq<byte>, two: seq<byte>)
    requires AllHex(h) && |h| <= 13 && AllHex(two) && |two| == 2
    ensures AllHex(h + two) && HexByte(h + two) == 16 * HexDigitValue(two[0]) + HexDigitValue(two[1])
  {
    hide HexDigitValue, Pow16, HexValue;
    BothHex(h, two);
    TwoDigits(two);
    HexPlaceValue(h, two);
    TwoPlaces();
    HexBound(h + two);
    FifteenDigits(|h + two|);
    LowByte(HexValue(h), HexDigitValue(two[0]), HexDigitValue(two[1]));
  }

  lemma BothHex(a: seq<byte>, b: seq<byte>)
    requires AllHex(a) && AllHex(b)
    ensures AllHex(a + b)
  {
  }

  lemma LowByte(x: nat, hi: nat, lo: nat)
    requires hi < 16 && lo < 16
    ensures (x * 256 + (16 * hi + lo)) % 256 == 16 * hi + lo
  {
  }

  lemma TwoDigits(two: seq<byte>)
    requires AllHex(two) && |two| == 2
    ensures HexValue(two) == 16 * HexDigitValue(two[0]) + HexDigitValue(two[1])
  {
    hide HexDigitValue;
    var one := two[..1];
    assert one[..0] == [] && HexValue([]) == 0 && HexValue(one) == HexDigitValue(two[0]);
  }

  /** Longer runs are cut off at the largest long, whose low byte is 255. */
  lemma HexByteMeans(h: seq<byte>)
    requires AllHex(h)
    ensures HexByte(h) == if HexValue(h) < 0x8000_0000_0000_0000 then HexValue(h) % 256 else 255
  {
  }

  lemma TwoPlaces()
    ensures Pow16(2) == 256
  {
    assert Pow16(1) == 16;
  }

  // ----- The writer -----

  /** The letter behind a backslash that stands for the byte. */
  function Letter(b: byte): Option<byte> {
    var c := b as char;
    if c == '\U{07}' then Some(Code('a'))
    else if c == '\U{08}' then Some(Code('b'))
    else if c == '\U{0C}' then Some(Code('f'))
    else if c == '\n' then Some(Code('n'))
    else if c == '\r' then Some(Code('r'))
    else if c == '\t' then Some(Code('t'))
    else if c == '\U{0B}' then Some(Code('v'))
    else if c in "\\\'\"" then Some(b)
    else None
  }

  /** Letters where there are some, printable bytes as they are, and two hex
      digits for the rest and for a digit that a hex escape would take. */
  function Write(s: seq<byte>, afterHex: bool): seq<byte>
    decreases s
  {
    if s == [] then []
    else
      var b := s[0];
      if Letter(b).Some? then [Code('\\'), Letter(b).value] + Write(s[1..], false)
      else if ' ' <= b as char <= '~' && !(afterHex && (b as char in LOWER_DIGITS || b as char in UPPER_DIGITS)) then
        [b] + Write(s[1..], false)
      else
        [Code('\\'), Code('x'), Code(LOWER_DIGITS[b / 16]), Code(LOWER_DIGITS[b % 16])] + Write(s[1..], true)
  }

  /** The letters stand for their bytes, whatever follows. */
  lemma LetterDecodes(b: byte, rest: seq<byte>)
    requires Letter(b).Some?
    ensures Decode([Code('\\'), Letter(b).value] + rest) == [b] + Decode(rest)
  {
    hide Decode;
    var s := [Code('\\'), Letter(b).value] + rest;
    assert s[2..] == rest;
    DecodeSteps(s);
  }

  /** So do two hex digits, when no digit follows. */
  lemma PairDecodes(b: byte, rest: seq<byte>)
    requires rest != [] ==> !IsHexDigit(rest[0])
    ensures
      Decode([Code('\\'), Code('x'), Code(LOWER_DIGITS[b / 16]), Code(LOWER_DIGITS[b % 16])] + rest)
      == [b] + Decode(rest)
  {
    hide Decode, HexByte, HexDigitValue, IsHexDigit;
    var hi, lo := Code(LOWER_DIGITS[b / 16]), Code(LOWER_DIGITS[b % 16]);
    assert IsDigitOf(hi, b / 16) && IsDigitOf(lo, b % 16);
    HexDigitMeans(hi);
    HexDigitMeans(lo);
    assert AllHex([hi, lo]);
    HexEscapeIsGreedy([hi, lo], rest);
    HexByteIsLastTwo([], [hi, lo]);
    assert [] + [hi, lo] == [hi, lo] && [hi, lo][..2] == [hi, lo] && [hi, lo][2..] == [];
    assert [BACKSLASH, LETTER_X] + [hi, lo] + rest == [BACKSLASH, LETTER_X, hi, lo] + rest;
  }

  lemma NoDigitFirst(s: seq<byte>)
    ensures Write(s, true) != [] ==> !IsHexDigit(Write(s, true)[0])
  {
    if s != [] {
      HexDigitMeans(s[0]);
    }
  }

  /** Decoding gives back every byte sequence that was written. */
  lemma {:induction false} DecodeWritten(s: seq<byte>, afterHex: bool)
    ensures Decode(Write(s, afterHex)) == s
    decreases s
  {
    hide Decode, Letter, IsHexDigit;
    if s == [] {
      DecodeNothing();
    } else {
      var b, rest := s[0], s[1..];
      assert s == [b] + rest;
      if Letter(b).Some? {
        DecodeWritten(rest, false);
        LetterDecodes(b, Write(rest, false));
      } else if ' ' <= b as char <= '~' && !(afterHex && (b as char in LOWER_DIGITS || b as char in UPPER_DIGITS)) {
        DecodeWritten(rest, false);
        PlainDecodes(b, Write(rest, false));
      } else {
        DecodeWritten(rest, true);
        NoDigitFirst(rest);
        PairDecodes(b, Write(rest, true));
      }
    }
  }

  lemma PlainDecodes(b: byte, rest: seq<byte>)
    requires Letter(b).None?
    ensures Decode([b] + rest) == [b] + Decode(rest)
  {
    hide Decode;
    PlainText([b], rest);
  }

  /** From the source to the module: a literal is written, decoded, stored and
      printed, and LLVM reads the bytes before the first NUL and a final NUL. */
  lemma LiteralReachesModule(a: seq<byte>, b: seq<byte>)
    requires 0 !in a && (b != [] ==> b[0] == 0)
    ensures Read(Body(CString(Decode(Write(a + b, false))))) == a + [0]
  {
    hide Decode, Write, Read, Body, CString;
    DecodeWritten(a + b, false);
    CStringCuts(a, b);
    BodyRoundTrip(a);
  }

  // ----- The other escapes -----

  /** `\0` is a NUL, and digits behind it stand for themselves. */
  lemma NulDecodes(rest: seq<byte>)
    ensures Decode([Code('\\'), Code('0')] + rest) == [0] + Decode(rest)
  {
    hide Decode;
    var s := [Code('\\'), Code('0')] + rest;
    assert s[2..] == rest;
    DecodeSteps(s);
  }

  /** A backslash in front of any other byte stays, `\?` among them, which C reads
      as a question mark. */
  lemma OthersStay(b: byte, rest: seq<byte>)
    requires b as char !in "0x" && forall c: byte :: Letter(c) != Some(b)
    ensures Decode([Code('\\'), b] + rest) == [Code('\\'), b] + Decode(rest)
  {
    hide Decode, Letter;
    var s := [Code('\\'), b] + rest;
    assert s[2..] == rest;
    NoLetter(b);
    DecodeSteps(s);
  }

  lemma NoLetter(b: byte)
    requires b as char !in "0" && forall c: byte :: Letter(c) != Some(b)
    ensures Escape(b) == [BACKSLASH, b]
  {
    assert Letter(7) == Some(Code('a')) && Letter(8) == Some(Code('b')) && Letter(12) == Some(Code('f'));
    assert Letter(10) == Some(Code('n')) && Letter(13) == Some(Code('r')) && Letter(9) == Some(Code('t'));
    assert Letter(11) == Some(Code('v')) && Letter(92) == Some(92) && Letter(39) == Some(39) && Letter(34) == Some(34);
  }

  lemma QuestionMarkStays(rest: seq<byte>)
    ensures Decode([Code('\\'), Code('?')] + rest) == [Code('\\'), Code('?')] + Decode(rest)
  {
    forall c: byte
      ensures Letter(c) != Some(Code('?'))
    {
    }
    OthersStay(Code('?'), rest);
  }
}
