/** Strings as bytes: how the lexer reads a literal, how the generator prints a
    constant and how it shares equal ones. */
module Bytes {
  type byte = x: int | 0 <= x < 256

  const BACKSLASH: byte := 92
  const QUOTE: byte := 34
  const LETTER_X: byte := 120

  predicate IsHexDigit(b: byte) { 48 <= b <= 57 || 65 <= b <= 70 || 97 <= b <= 102 }

  function HexDigitValue(b: byte): (r: nat)
    requires IsHexDigit(b)
    ensures r < 16
  {
    if b <= 57 then b - 48 else if b <= 70 then b - 55 else b - 87
  }

  /** `%X` of one digit. */
  function HexDigit(n: nat): (b: byte)
    requires n < 16
    ensures IsHexDigit(b) && HexDigitValue(b) == n
  {
    if n < 10 then n + 48 else n + 55
  }
}

/** process_string_literal: the escapes of a literal without a prefix. */
module StringLiterals {
  import opened Bytes

  const HEX_BUFFER := 31
  const LONG_MAX := 0x7FFF_FFFF_FFFF_FFFF

  predicate AllHex(s: seq<byte>) { forall i :: 0 <= i < |s| ==> IsHexDigit(s[i]) }

  function HexValue(s: seq<byte>): nat
    requires AllHex(s)
  {
    if s == [] then 0 else 16 * HexValue(s[..|s| - 1]) + HexDigitValue(s[|s| - 1])
  }

  /** strtol gives LONG_MAX when the digits do not fit, and a char keeps its low
      byte. */
  function HexByte(s: seq<byte>): byte
    requires AllHex(s)
  {
    if HexValue(s) > LONG_MAX then LONG_MAX % 256 else HexValue(s) % 256
  }

  /** The number of hex digits at the start of s, up to limit. */
  function HexRun(s: seq<byte>, limit: nat): (k: nat)
    ensures k <= |s| && k <= limit && AllHex(s[..k])
    ensures k < |s| && k < limit ==> !IsHexDigit(s[k])
    decreases limit
  {
    if limit == 0 || s == [] || !IsHexDigit(s[0]) then 0
    else
      var k := HexRun(s[1..], limit - 1);
      assert forall i :: 0 < i < k + 1 ==> s[i] == s[1..][i - 1];
      k + 1
  }

  /** What a backslash and this byte stand for. */
  function Escape(b: byte): seq<byte> {
    match b
    case 110 => [10]
    case 116 => [9]
    case 114 => [13]
    case 98 => [8]
    case 102 => [12]
    case 97 => [7]
    case 118 => [11]
    case 92 => [92]
    case 39 => [39]
    case 34 => [34]
    case 48 => [0]
    case _ => [BACKSLASH, b]
  }

  /** The bytes that the text between the quotes stands for. */
  function Decode(s: seq<byte>): seq<byte>
    decreases |s|
  {
    if s == [] then []
    else if s[0] != BACKSLASH || |s| == 1 then [s[0]] + Decode(s[1..])
    else if s[1] != LETTER_X then Escape(s[1]) + Decode(s[2..])
    else
      var k := HexRun(s[2..], HEX_BUFFER);
      (if k == 0 then [BACKSLASH, LETTER_X] else [HexByte(s[2..][..k])]) + Decode(s[2 + k..])
  }

  lemma DecodeByte(s: seq<byte>)
    requires s != [] && (s[0] != BACKSLASH || |s| == 1)
    ensures Decode(s) == [s[0]] + Decode(s[1..])
  {
    hide HexRun, Escape, HexByte;
  }

  lemma DecodeEscape(s: seq<byte>)
    requires |s| > 1 && s[0] == BACKSLASH && s[1] != LETTER_X
    ensures Decode(s) == Escape(s[1]) + Decode(s[2..])
  {
    hide HexRun, Escape, HexByte;
  }

  lemma DecodeHex(s: seq<byte>)
    requires |s| > 1 && s[0] == BACKSLASH && s[1] == LETTER_X
    ensures Decode(s) == HexResult(s) + Decode(s[2 + HexRun(s[2..], HEX_BUFFER)..])
  {
    hide HexRun, Escape, HexByte;
  }

  lemma DecodeSteps(s: seq<byte>)
    requires s != []
    ensures s[0] != BACKSLASH || |s| == 1 ==> Decode(s) == [s[0]] + Decode(s[1..])
    ensures s[0] == BACKSLASH && |s| > 1 && s[1] != LETTER_X ==> Decode(s) == Escape(s[1]) + Decode(s[2..])
    ensures s[0] == BACKSLASH && |s| > 1 && s[1] == LETTER_X ==>
              Decode(s) == HexResult(s) + Decode(s[2 + HexRun(s[2..], HEX_BUFFER)..])
  {
    hide Decode, HexRun, Escape, HexByte, HexResult;
    if s[0] != BACKSLASH || |s| == 1 {
      DecodeByte(s);
    } else if s[1] != LETTER_X {
      DecodeEscape(s);
    } else {
      DecodeHex(s);
    }
  }

  /** A literal is never longer than its source. */
  lemma {:induction false} DecodeShrinks(s: seq<byte>)
    ensures |Decode(s)| <= |s|
    decreases |s|
  {
    hide Decode, HexRun, HexResult;
    if s == [] {
      DecodeNothing();
    } else {
      DecodeSteps(s);
      if s[0] != BACKSLASH || |s| == 1 {
        DecodeShrinks(s[1..]);
      } else if s[1] != LETTER_X {
        DecodeShrinks(s[2..]);
      } else {
        DecodeShrinks(s[2 + HexRun(s[2..], HEX_BUFFER)..]);
      }
    }
  }

  lemma DecodeNothing()
    ensures Decode([]) == []
  {
  }

  /** Text without a backslash stands for itself, whatever follows. */
  lemma {:induction false} PlainText(a: seq<byte>, b: seq<byte>)
    requires BACKSLASH !in a
    ensures Decode(a + b) == a + Decode(b)
    decreases |a|
  {
    hide Decode;
    if a == [] {
      assert a + b == b;
    } else {
      assert (a + b)[1..] == a[1..] + b && (a + b)[0] == a[0];
      PlainText(a[1..], b);
      DecodeSteps(a + b);
      Regroup([a[0]], a[1..], Decode(b));
      assert a == [a[0]] + a[1..];
    }
  }

  lemma Regroup(a: seq<byte>, b: seq<byte>, c: seq<byte>)
    ensures a + (b + c) == (a + b) + c
  {
  }

  /** The digits after `\x`, or the two bytes themselves. */
  function HexResult(s: seq<byte>): (r: seq<byte>)
    requires |s| >= 2
    ensures 1 <= |r| <= 2 + HexRun(s[2..], HEX_BUFFER)
  {
    var k := HexRun(s[2..], HEX_BUFFER);
    if k == 0 then [BACKSLASH, LETTER_X] else [HexByte(s[2..][..k])]
  }

  /** A hex escape takes the whole run of digits after it, up to the room in its
      buffer, into one byte; the digits that have no room stand for themselves. */
  lemma HexEscapeIsGreedy(h: seq<byte>, rest: seq<byte>)
    requires AllHex(h) && (rest != [] ==> !IsHexDigit(rest[0]))
    ensures
      var k := if |h| < 31 then |h| else 31;
      Decode([BACKSLASH, LETTER_X] + h + rest)
      == (if h == [] then [BACKSLASH, LETTER_X] else [HexByte(h[..k])]) + h[k..] + Decode(rest)
  {
    hide HexByte, Decode, HexRun, AllHex, HexResult;
    var s, k := [BACKSLASH, LETTER_X] + h + rest, if |h| < HEX_BUFFER then |h| else HEX_BUFFER;
    Apart(s, h, rest, k);
    WholeRun(h, rest, HEX_BUFFER);
    HexDecodes(s, k, h[k..] + rest);
    ResultOfRun(s, h, k);
    DigitsArePlain(h);
    PlainText(h[k..], rest);
    Regroup(HexResult(s), h[k..], Decode(rest));
  }

  lemma ResultOfRun(s: seq<byte>, h: seq<byte>, k: nat)
    requires |s| >= 2 && k == HexRun(s[2..], HEX_BUFFER) && k <= |h| && s[2..][..k] == h[..k] && AllHex(h)
    requires k == 0 <==> h == []
    ensures HexResult(s) == if h == [] then [BACKSLASH, LETTER_X] else [HexByte(h[..k])]
  {
    hide HexRun, HexByte;
  }

  lemma HexDecodes(s: seq<byte>, k: nat, tail: seq<byte>)
    requires |s| >= 2 && s[0] == BACKSLASH && s[1] == LETTER_X
    requires k == HexRun(s[2..], HEX_BUFFER) && tail == s[2 + k..]
    ensures Decode(s) == HexResult(s) + Decode(tail)
  {
    hide HexRun, HexResult, Decode;
    DecodeSteps(s);
  }

  lemma Apart(s: seq<byte>, h: seq<byte>, rest: seq<byte>, k: nat)
    requires s == [BACKSLASH, LETTER_X] + h + rest && k <= |h|
    ensures s[0] == BACKSLASH && s[1] == LETTER_X && s[2..] == h + rest
    ensures (h + rest)[..k] == h[..k] && s[2 + k..] == h[k..] + rest
  {
  }

  lemma DigitsArePlain(h: seq<byte>)
    requires AllHex(h)
    ensures BACKSLASH !in h
  {
  }

  lemma {:induction false} WholeRun(h: seq<byte>, rest: seq<byte>, limit: nat)
    requires AllHex(h) && (rest != [] ==> !IsHexDigit(rest[0]))
    ensures HexRun(h + rest, limit) == if |h| < limit then |h| else limit
    decreases limit
  {
    if h == [] {
      assert h + rest == rest;
    } else if limit > 0 {
      assert (h + rest)[1..] == h[1..] + rest;
      WholeRun(h[1..], rest, limit - 1);
    }
  }

  /** Inner scan: copies digits to the hex buffer while there is room. */
  method ScanHex(text: seq<byte>, start: int, hexBuf: array<byte>) returns (i: int, k: int)
    requires 1 <= start <= |text| - 1 && hexBuf.Length == HEX_BUFFER + 1
    modifies hexBuf
    ensures k == HexRun(text[start..|text| - 1], HEX_BUFFER) && i == start + k <= |text| - 1
    ensures hexBuf[..k] == text[start..i]
  {
    hide HexRun;
    i, k := start, 0;
    ghost var rest := text[start..|text| - 1];
    assert rest[0..] == rest;
    while i < |text| - 1 && IsHexDigit(text[i]) && k < HEX_BUFFER
      invariant 0 <= k <= HEX_BUFFER && i == start + k <= |text| - 1
      invariant hexBuf[..k] == text[start..i]
      invariant HexRun(rest, HEX_BUFFER) == k + HexRun(rest[k..], HEX_BUFFER - k)
    {
      HexStep(rest, k);
      hexBuf[k] := text[i];
      k, i := k + 1, i + 1;
    }
    HexStop(rest, k);
  }

  lemma HexStep(s: seq<byte>, k: nat)
    requires k < |s| && k < HEX_BUFFER && IsHexDigit(s[k])
    ensures HexRun(s[k..], HEX_BUFFER - k) == 1 + HexRun(s[k + 1..], HEX_BUFFER - k - 1)
  {
    assert s[k..][1..] == s[k + 1..];
  }

  lemma HexStop(s: seq<byte>, k: nat)
    requires k <= |s| && k <= HEX_BUFFER && (k == |s| || k == HEX_BUFFER || !IsHexDigit(s[k]))
    ensures HexRun(s[k..], HEX_BUFFER - k) == 0
  {
  }

  /** Writes what an escape other than a hex one stands for. */
  method PutEscape(result: array<byte>, at: int, b: byte) returns (j: int)
    requires 0 <= at && at + 2 <= result.Length
    modifies result
    ensures j == at + |Escape(b)| <= at + 2
    ensures result[..j] == old(result[..at]) + Escape(b)
  {
    j := at;
    match b {
      case 110 => result[j] := 10; j := j + 1;
      case 116 => result[j] := 9; j := j + 1;
      case 114 => result[j] := 13; j := j + 1;
      case 98 => result[j] := 8; j := j + 1;
      case 102 => result[j] := 12; j := j + 1;
      case 97 => result[j] := 7; j := j + 1;
      case 118 => result[j] := 11; j := j + 1;
      case 92 => result[j] := 92; j := j + 1;
      case 39 => result[j] := 39; j := j + 1;
      case 34 => result[j] := 34; j := j + 1;
      case 48 => result[j] := 0; j := j + 1;
      case _ =>
        result[j] := BACKSLASH;
        result[j + 1] := b;
        j := j + 2;
    }
  }

  /** Writes what a hex escape stands for and goes to the end of its digits. */
  method PutHex(text: seq<byte>, start: int, result: array<byte>, hexBuf: array<byte>, at: int) returns (i: int, j: int)
    requires 1 <= start && start + 2 <= |text| - 1 && hexBuf.Length == HEX_BUFFER + 1 && result != hexBuf
    requires 0 <= at && at + 2 <= result.Length
    modifies result, hexBuf
    ensures i == start + 2 + HexRun(text[start..|text| - 1][2..], HEX_BUFFER) <= |text| - 1
    ensures j == at + |HexResult(text[start..|text| - 1])| <= at + 2
    ensures result[..j] == old(result[..at]) + HexResult(text[start..|text| - 1])
  {
    hide HexRun, HexByte;
    ghost var s := text[start..|text| - 1];
    assert s[2..] == text[start + 2..|text| - 1];
    var k;
    i, k := ScanHex(text, start + 2, hexBuf);
    assert s[2..][..k] == text[start + 2..i];
    j := at;
    if k > 0 {
      assert hexBuf[..k] == s[2..][..k];
      result[j] := HexByte(hexBuf[..k]);
      j := j + 1;
    } else {
      result[j] := BACKSLASH;
      result[j + 1] := LETTER_X;
      j := j + 2;
    }
  }

  /** The single pass over the literal, quotes included, into a buffer of the
      literal's length: the output index never passes the input index, so it
      stays inside the buffer, and the result is the recursive decoder's. */
  method ProcessStringLiteral(text: seq<byte>) returns (result: array<byte>, j: int)
    requires |text| >= 2
    ensures fresh(result) && result.Length == |text| && 0 <= j < |text|
    ensures result[..j] == Decode(text[1..|text| - 1]) && result[j] == 0
  {
    hide Decode, HexRun, Escape, HexResult;
    var len := |text|;
    result := new byte[len](_ => 0);
    var hexBuf := new byte[HEX_BUFFER + 1](_ => 0);
    j := 0;
    var i := 1;
    while i < len - 1
      invariant 1 <= i <= len - 1 && 0 <= j <= i - 1
      invariant Decode(text[1..len - 1]) == result[..j] + Decode(text[i..len - 1])
    {
      ghost var s, done := text[i..len - 1], result[..j];
      DecodeSteps(s);
      if text[i] == BACKSLASH && i + 1 < len - 1 {
        if text[i + 1] == LETTER_X {
          ghost var k := HexRun(s[2..], HEX_BUFFER);
          i, j := PutHex(text, i, result, hexBuf, j);
          assert s[2 + k..] == text[i..len - 1];
          Regroup(done, HexResult(s), Decode(s[2 + k..]));
          i := i - 1;
        } else {
          j := PutEscape(result, j, text[i + 1]);
          assert s[2..] == text[i + 2..len - 1];
          Regroup(done, Escape(s[1]), Decode(s[2..]));
          i := i + 1;
        }
      } else {
        result[j] := text[i];
        j := j + 1;
        assert s[1..] == text[i + 1..len - 1];
        Regroup(done, [s[0]], Decode(s[1..]));
      }
      i := i + 1;
    }
    assert text[i..len - 1] == [];
    DecodeNothing();
    result[j] := 0;
  }
}

/** Constants in the printed module. */
module StringConstants {
  import opened Bytes

  /** A byte in the body of `c"..."`. */
  function EscapeByte(b: byte): (r: seq<byte>)
    ensures r != []
  {
    match b
    case 10 => [BACKSLASH, 48, 65]
    case 9 => [BACKSLASH, 48, 57]
    case 13 => [BACKSLASH, 48, 68]
    case 92 => [BACKSLASH, BACKSLASH]
    case 34 => [BACKSLASH, 50, 50]
    case _ => if 32 <= b <= 126 then [b] else [BACKSLASH, HexDigit(b / 16), HexDigit(b % 16)]
  }

  function Escaped(s: seq<byte>): seq<byte> {
    if s == [] then [] else Escaped(s[..|s| - 1]) + EscapeByte(s[|s| - 1])
  }

  /** What is printed between the quotes. */
  function Body(s: seq<byte>): seq<byte> { Escaped(s) + [BACKSLASH, 48, 48] }

  /** How LLVM reads the body: `\\` is a backslash, a backslash with two hex
      digits is that byte, everything else is itself. */
  function Read(s: seq<byte>): seq<byte>
    decreases |s|
  {
    if s == [] then []
    else if s[0] == BACKSLASH && |s| >= 2 && s[1] == BACKSLASH then [BACKSLASH] + Read(s[2..])
    else if s[0] == BACKSLASH && |s| >= 3 && IsHexDigit(s[1]) && IsHexDigit(s[2]) then
      [16 * HexDigitValue(s[1]) + HexDigitValue(s[2])] + Read(s[3..])
    else [s[0]] + Read(s[1..])
  }

  /** A printed byte is read back as it was, whatever comes after it. */
  lemma ReadOne(b: byte, rest: seq<byte>)
    ensures Read(EscapeByte(b) + rest) == [b] + Read(rest)
  {
    var s := EscapeByte(b) + rest;
    if |EscapeByte(b)| == 1 {
      assert s[1..] == rest;
    } else if |EscapeByte(b)| == 2 {
      assert s[2..] == rest;
    } else {
      assert s[3..] == rest;
      assert 16 * (b / 16) + b % 16 == b;
    }
  }

  lemma {:induction false} ReadEscaped(s: seq<byte>, rest: seq<byte>)
    ensures Read(Escaped(s) + rest) == s + Read(rest)
    decreases |s|
  {
    hide Read, EscapeByte;
    if s == [] {
      assert Escaped(s) + rest == rest;
    } else {
      var front, last := s[..|s| - 1], s[|s| - 1];
      assert Escaped(s) + rest == Escaped(front) + (EscapeByte(last) + rest);
      ReadEscaped(front, EscapeByte(last) + rest);
      ReadOne(last, rest);
      assert front + ([last] + Read(rest)) == s + Read(rest);
    }
  }

  /** The printed constant is the string and a final 0, so as long as the array
      type printed with it. */
  lemma BodyRoundTrip(s: seq<byte>)
    ensures Read(Body(s)) == s + [0] && |Read(Body(s))| == |s| + 1
  {
    var zero: seq<byte> := [BACKSLASH, 48, 48];
    ReadEscaped(s, zero);
    assert zero[3..] == [] && Read(zero) == [0];
  }

  /** Different strings print differently. */
  lemma BodyInjective(s: seq<byte>, t: seq<byte>)
    ensures Body(s) == Body(t) <==> s == t
  {
    BodyRoundTrip(s);
    BodyRoundTrip(t);
    assert s + [0] == t + [0] ==> (s + [0])[..|s|] == (t + [0])[..|t|];
  }

  /** No quote ends the body early. */
  lemma {:induction false} NoRawQuote(s: seq<byte>)
    ensures QUOTE !in Body(s) && QUOTE !in Escaped(s)
    decreases |s|
  {
    if s != [] {
      NoRawQuote(s[..|s| - 1]);
      assert QUOTE !in EscapeByte(s[|s| - 1]);
    }
  }

  // ----- Sharing equal strings -----

  /** A C string ends at its first 0. */
  function CString(s: seq<byte>): (r: seq<byte>)
    ensures 0 !in r
  {
    if s == [] || s[0] == 0 then [] else [s[0]] + CString(s[1..])
  }

  /** The part before the first 0, or all when there is none. */
  lemma {:induction false} CStringCuts(a: seq<byte>, b: seq<byte>)
    requires 0 !in a && (b != [] ==> b[0] == 0)
    ensures CString(a + b) == a
    decreases |a|
  {
    if a == [] {
      assert a + b == b;
    } else {
      assert (a + b)[1..] == a[1..] + b;
      CStringCuts(a[1..], b);
    }
  }

  datatype Entry = Entry(content: seq<byte>, id: int)

  /** string_literals and string_counter, which is their number. */
  class StringTable {
    var literals: seq<Entry>
    var counter: int

    /** The content at i has id i + 1, and no content is there twice. */
    ghost predicate Valid()
      reads this
    {
      && counter == |literals|
      && (forall i :: 0 <= i < |literals| ==> literals[i].id == i + 1)
      && (forall i, j :: 0 <= i < j < |literals| ==> literals[i].content != literals[j].content)
    }

    ghost function Contents(): seq<seq<byte>>
      reads this
    {
      ContentsOf(literals)
    }

    constructor ()
      ensures Valid() && Contents() == []
    {
      literals, counter := [], 0;
    }

    /** The place of a content, or the number of entries. */
    method FindLiteral(c: seq<byte>) returns (i: int)
      requires Valid()
      ensures Valid() && 0 <= i <= |literals| && (c in Contents() <==> i < |literals|)
      ensures i < |literals| ==> i == IndexOf(Contents(), c)
    {
      hide IndexOf, ContentsOf;
      ContentsAt(literals);
      i := 0;
      while i < |literals|
        invariant 0 <= i <= |literals|
        invariant forall j :: 0 <= j < i ==> literals[j].content != c
      {
        if literals[i].content == c {
          FoundAt(Contents(), c, i);
          return;
        }
        i := i + 1;
      }
      NotFound(Contents(), c);
    }

    /** store_string_literal. */
    method Store(s: seq<byte>) returns (id: int)
      requires Valid()
      modifies this
      ensures Valid() && (Contents(), id) == Intern(old(Contents()), CString(s))
    {
      hide IndexOf, CString;
      ContentsAt(literals);
      var c := CString(s);
      var i := FindLiteral(c);
      if i < |literals| {
        return literals[i].id;
      }
      forall j | 0 <= j < |literals|
        ensures literals[j].content != c
      {
        assert Contents()[j] in Contents();
      }
      counter := counter + 1;
      literals := literals + [Entry(c, counter)];
      id := counter;
      assert literals[..|literals| - 1] == old(literals);
    }

    /** generate_string_constants: one line per string, with its id, the length
        printed in its type and its body. */
    method PrintAll() returns (lines: seq<Line>)
      requires Valid()
      ensures |lines| == |literals|
      ensures forall i :: 0 <= i < |lines| ==>
        lines[i] == Line(i + 1, |literals[i].content| + 1, Body(literals[i].content))
    {
      lines := [];
      var i := 0;
      while i < |literals|
        invariant 0 <= i <= |literals| == |literals| && |lines| == i
        invariant forall j :: 0 <= j < i ==>
          lines[j] == Line(j + 1, |literals[j].content| + 1, Body(literals[j].content))
      {
        var body := PrintBody(literals[i].content);
        lines := lines + [Line(literals[i].id, |literals[i].content| + 1, body)];
        i := i + 1;
      }
    }
  }

  /** `@.str<id> = ... [<length> x i8] c"<body>"`. */
  datatype Line = Line(id: int, length: int, body: seq<byte>)

  /** One pass over the bytes of a string. */
  method PrintBody(s: seq<byte>) returns (out: seq<byte>)
    ensures out == Body(s)
  {
    out := [];
    var i := 0;
    assert s[..0] == [];
    while i < |s|
      invariant 0 <= i <= |s| && out == Escaped(s[..i])
    {
      assert s[..i + 1][..i] == s[..i];
      out := out + EscapeByte(s[i]);
      i := i + 1;
    }
    assert s[..i] == s;
    out := out + [BACKSLASH, 48, 48];
  }

  function ContentsOf(es: seq<Entry>): seq<seq<byte>> {
    if es == [] then [] else ContentsOf(es[..|es| - 1]) + [es[|es| - 1].content]
  }

  lemma {:induction false} ContentsAt(es: seq<Entry>)
    ensures |ContentsOf(es)| == |es| && forall i :: 0 <= i < |es| ==> ContentsOf(es)[i] == es[i].content
    decreases es
  {
    if es != [] {
      ContentsAt(es[..|es| - 1]);
    }
  }

  /** The place of a content among those seen, or one past them. */
  function IndexOf(seen: seq<seq<byte>>, c: seq<byte>): (i: nat)
    ensures i <= |seen| && (i < |seen| ==> seen[i] == c) && (c in seen <==> i < |seen|)
  {
    if seen == [] then 0 else if seen[0] == c then 0 else 1 + IndexOf(seen[1..], c)
  }

  function Intern(seen: seq<seq<byte>>, c: seq<byte>): (seq<seq<byte>>, int) {
    if c in seen then (seen, IndexOf(seen, c) + 1) else (seen + [c], |seen| + 1)
  }

  lemma {:induction false} FoundAt(seen: seq<seq<byte>>, c: seq<byte>, i: nat)
    requires i < |seen| && seen[i] == c && forall j :: 0 <= j < i ==> seen[j] != c
    ensures IndexOf(seen, c) == i && c in seen
    decreases seen
  {
    if i > 0 {
      FoundAt(seen[1..], c, i - 1);
    }
  }

  lemma NotFound(seen: seq<seq<byte>>, c: seq<byte>)
    requires forall j :: 0 <= j < |seen| ==> seen[j] != c
    ensures c !in seen
  {
  }

  /** The ids of a sequence of stores. */
  function Ids(seen: seq<seq<byte>>, cs: seq<seq<byte>>): (r: seq<int>)
    ensures |r| == |cs|
    decreases cs
  {
    if cs == [] then []
    else
      var (seen', id) := Intern(seen, cs[0]);
      [id] + Ids(seen', cs[1..])
  }

  /** The id of a content that was seen stays its place. */
  lemma {:induction false} IndexStays(seen: seq<seq<byte>>, more: seq<seq<byte>>, c: seq<byte>)
    requires c in seen
    ensures IndexOf(seen + more, c) == IndexOf(seen, c)
    decreases seen
  {
    assert (seen + more)[0] == seen[0];
    if seen[0] != c {
      assert (seen + more)[1..] == seen[1..] + more;
      IndexStays(seen[1..], more, c);
    }
  }

  lemma {:induction false} IndexNew(seen: seq<seq<byte>>, c: seq<byte>)
    requires c !in seen
    ensures IndexOf(seen + [c], c) == |seen|
    decreases seen
  {
    if seen == [] {
      assert seen + [c] == [c];
    } else {
      assert (seen + [c])[1..] == seen[1..] + [c];
      IndexNew(seen[1..], c);
    }
  }

  /** What is seen in the end, and that every id is a place in it. */
  lemma {:induction false} IdsArePlaces(seen: seq<seq<byte>>, cs: seq<seq<byte>>) returns (last: seq<seq<byte>>)
    ensures seen <= last
    ensures forall i :: 0 <= i < |cs| ==> cs[i] in last && Ids(seen, cs)[i] == IndexOf(last, cs[i]) + 1
    decreases cs
  {
    if cs == [] {
      last := seen;
    } else {
      var (seen', id) := Intern(seen, cs[0]);
      last := IdsArePlaces(seen', cs[1..]);
      var more := last[|seen'|..];
      assert last == seen' + more;
      if cs[0] !in seen {
        IndexNew(seen, cs[0]);
      }
      IndexStays(seen', more, cs[0]);
      forall i | 0 < i < |cs|
        ensures cs[i] in last && Ids(seen, cs)[i] == IndexOf(last, cs[i]) + 1
      {
        assert cs[1..][i - 1] == cs[i];
      }
    }
  }

  /** Two stores give the same id exactly when the contents are the same. */
  lemma InterningIsExact(cs: seq<seq<byte>>, i: nat, j: nat)
    requires i < |cs| && j < |cs|
    ensures Ids([], cs)[i] == Ids([], cs)[j] <==> cs[i] == cs[j]
  {
    var last := IdsArePlaces([], cs);
    assert last[IndexOf(last, cs[i])] == cs[i] && last[IndexOf(last, cs[j])] == cs[j];
  }

  /** What the stores of some strings see of them. */
  function CStrings(ss: seq<seq<byte>>): (r: seq<seq<byte>>)
    ensures |r| == |ss| && forall i :: 0 <= i < |ss| ==> r[i] == CString(ss[i])
  {
    if ss == [] then [] else CStrings(ss[..|ss| - 1]) + [CString(ss[|ss| - 1])]
  }

  /** Two strings share an id exactly when their parts before a 0 are equal; a
      string without a 0 is all such a part. */
  lemma StoresShareExactly(
    ss: seq<seq<byte>>, i: nat, a: seq<byte>, x: seq<byte>, j: nat, b: seq<byte>, y: seq<byte>)
    requires i < |ss| && ss[i] == a + x && 0 !in a && (x != [] ==> x[0] == 0)
    requires j < |ss| && ss[j] == b + y && 0 !in b && (y != [] ==> y[0] == 0)
    ensures Ids([], CStrings(ss))[i] == Ids([], CStrings(ss))[j] <==> a == b
  {
    InterningIsExact(CStrings(ss), i, j);
    CStringCuts(a, x);
    CStringCuts(b, y);
  }
}
