/** Byte strings, and the two pieces of arithmetic on them that the JSON codec is
    built from: hexadecimal quadruples and shortest-form UTF-8. */
module Bytes {

  type Byte = b: int | 0 <= b < 256
  type Text = seq<Byte>

  const NUL: Byte := 0
  const TAB: Byte := 9
  const LF: Byte := 10
  const CR: Byte := 13
  const SPACE: Byte := 32
  const QUOTE: Byte := 34
  const PLUS: Byte := 43
  const COMMA: Byte := 44
  const MINUS: Byte := 45
  const DOT: Byte := 46
  const COLON: Byte := 58
  const QUESTION: Byte := 63
  const LBRACKET: Byte := 91
  const BACKSLASH: Byte := 92
  const RBRACKET: Byte := 93
  const LETTER_U: Byte := 117
  const LBRACE: Byte := 123
  const RBRACE: Byte := 125

  predicate IsDigit(b: Byte) { 48 <= b <= 57 }

  predicate IsSpace(b: Byte) { b == SPACE || b == TAB || b == LF || b == CR }

  /** The bytes of a text of ASCII characters. */
  function Ascii(s: string): (t: Text)
    ensures |t| == |s| && forall i | 0 <= i < |t| :: t[i] < 0x80
  {
    seq(|s|, i requires 0 <= i < |s| => if s[i] as int < 0x80 then s[i] as int else QUESTION)
  }

  lemma Assoc(a: Text, b: Text, c: Text)
    ensures (a + b) + c == a + (b + c)
  {}

  // ---- hexadecimal ----

  /** One lower-case digit, as the format "%04x" prints it. */
  function HexDigit(d: nat): Byte
    requires d < 16
  {
    if d < 10 then 48 + d else 87 + d
  }

  /** The value of a hexadecimal digit of either case, or -1. */
  function HexVal(b: Byte): int {
    if 48 <= b <= 57 then b - 48
    else if 97 <= b <= 102 then b - 87
    else if 65 <= b <= 70 then b - 55
    else -1
  }

  function Hex4(n: nat): Text
    requires n < 0x10000
  {
    [HexDigit(n / 16 / 16 / 16), HexDigit(n / 16 / 16 % 16), HexDigit(n / 16 % 16), HexDigit(n % 16)]
  }

  /** What from_chars(..., 16) reads from exactly four bytes: the longest run of digits
      counts, and no digit at all is an error (-1). */
  function ReadHex4(t: Text): int
    requires |t| == 4
  {
    var a, b, c, d := HexVal(t[0]), HexVal(t[1]), HexVal(t[2]), HexVal(t[3]);
    if a < 0 then -1
    else if b < 0 then a
    else if c < 0 then a * 16 + b
    else if d < 0 then (a * 16 + b) * 16 + c
    else ((a * 16 + b) * 16 + c) * 16 + d
  }

  lemma HexDigitValue(d: nat)
    requires d < 16
    ensures HexVal(HexDigit(d)) == d
  {}

  lemma HexRoundTrip(n: nat)
    requires n < 0x10000
    ensures ReadHex4(Hex4(n)) == n
    ensures forall i | 0 <= i < 4 :: HexVal(Hex4(n)[i]) >= 0
  {
    hide HexVal, HexDigit;
    HexDigitValue(n / 16 / 16 / 16);
    HexDigitValue(n / 16 / 16 % 16);
    HexDigitValue(n / 16 % 16);
    HexDigitValue(n % 16);
  }

  lemma HexBound(t: Text)
    requires |t| == 4
    ensures ReadHex4(t) < 0x10000
  {
    assert forall i | 0 <= i < 4 :: HexVal(t[i]) <= 15;
  }

  // ---- UTF-8 ----

  /** The 1, 2 or 3 byte encoding of a code point below 0x10000. */
  function Utf8(cp: nat): Text
    requires cp < 0x10000
  {
    if cp < 0x80 then [cp]
    else if cp < 0x800 then [0xC0 + cp / 64, 0x80 + cp % 64]
    else [0xE0 + cp / 4096, 0x80 + cp / 64 % 64, 0x80 + cp % 64]
  }

  predicate Continuation(b: Byte) { 0x80 <= b < 0xC0 }

  /** Length of the shortest-form 1-3 byte character at the front, or 0 if there is none
      (RFC 3629 section 3, with the surrogate range let through). */
  function CharLen(s: Text): (n: nat)
    ensures n <= |s| && n <= 3
  {
    if s == [] then 0
    else if s[0] < 0x80 then 1
    else if 0xC2 <= s[0] < 0xE0 && |s| >= 2 && Continuation(s[1]) then 2
    else if 0xE0 <= s[0] < 0xF0 && |s| >= 3 && Continuation(s[1]) && Continuation(s[2])
            && (s[0] == 0xE0 ==> s[1] >= 0xA0) then 3
    else 0
  }

  /** The byte string is a concatenation of shortest-form 1-3 byte characters. */
  predicate Canonical(s: Text) {
    s == [] || (CharLen(s) > 0 && Canonical(s[CharLen(s)..]))
  }

  lemma Utf8IsChar(cp: nat, t: Text)
    requires cp < 0x10000
    ensures CharLen(Utf8(cp) + t) == |Utf8(cp)| > 0
    ensures (Utf8(cp) + t)[|Utf8(cp)|..] == t
  {
    var u := Utf8(cp);
    assert forall i | 0 <= i < |u| :: (u + t)[i] == u[i];
    if 0x80 <= cp < 0x800 {
      assert cp / 64 >= 2;
    } else if cp >= 0x800 {
      assert cp / 4096 <= 15;
      assert cp / 4096 == 0 ==> cp / 64 % 64 == cp / 64 >= 32;
    }
  }

  lemma CanonicalCons(cp: nat, t: Text)
    requires cp < 0x10000
    ensures Canonical(Utf8(cp) + t) <==> Canonical(t)
  {
    Utf8IsChar(cp, t);
  }

  lemma {:induction false} AsciiIsCanonical(s: Text)
    requires forall i | 0 <= i < |s| :: s[i] < 0x80
    ensures Canonical(s)
  {
    if s != [] {
      AsciiIsCanonical(s[1..]);
    }
  }

  /** The encoding of RFC 3629 section 3 for code points below 0x10000: how many bytes, which bytes
      may stand where, and their weights. */
  lemma Utf8Meaning(cp: nat)
    requires cp < 0x10000
    ensures var u := Utf8(cp);
            && (cp < 0x80 ==> u == [cp])
            && (0x80 <= cp < 0x800 ==>
                 |u| == 2 && 0xC2 <= u[0] <= 0xDF && 0x80 <= u[1] <= 0xBF && (u[0] as int - 0xC0) * 64 + (u[1] as int - 0x80) == cp)
            && (0x800 <= cp ==>
                 && |u| == 3 && 0xE0 <= u[0] <= 0xEF && 0x80 <= u[1] <= 0xBF && 0x80 <= u[2] <= 0xBF
                 && (u[0] as int - 0xE0) * 4096 + (u[1] as int - 0x80) * 64 + (u[2] as int - 0x80) == cp)
  {
    if cp >= 0x800 {
      assert cp / 64 / 64 == cp / 4096;
    }
  }

  /** The encodings of the code points one after the other. */
  function Encoded(cps: seq<nat>): Text
    requires forall i | 0 <= i < |cps| :: cps[i] < 0x10000
  {
    if cps == [] then [] else Utf8(cps[0]) + Encoded(cps[1..])
  }

  lemma {:induction false} EncodedIsCanonical(cps: seq<nat>)
    requires forall i | 0 <= i < |cps| :: cps[i] < 0x10000
    ensures Canonical(Encoded(cps))
  {
    if cps != [] {
      EncodedIsCanonical(cps[1..]);
      CanonicalCons(cps[0], Encoded(cps[1..]));
    }
  }

  lemma CharIsUtf8(s: Text) returns (cp: nat)
    requires CharLen(s) > 0
    ensures cp < 0x10000 && s[..CharLen(s)] == Utf8(cp)
  {
    var n := CharLen(s);
    if n == 1 {
      cp := s[0];
    } else if n == 2 {
      cp := (s[0] as int - 0xC0) * 64 + (s[1] as int - 0x80);
      assert cp / 64 == s[0] - 0xC0;
    } else {
      var high := (s[0] as int - 0xE0) * 64 + (s[1] as int - 0x80);
      cp := high * 64 + (s[2] as int - 0x80);
      assert cp / 64 == high && high / 64 == s[0] - 0xE0;
      assert cp / 4096 == cp / 64 / 64;
    }
  }

  /** Canonical texts are exactly the encodings of code points below 0x10000. */
  lemma {:induction false} CanonicalIsEncoded(s: Text) returns (cps: seq<nat>)
    requires Canonical(s)
    ensures (forall i | 0 <= i < |cps| :: cps[i] < 0x10000) && s == Encoded(cps)
  {
    if s == [] { return []; }
    var cp := CharIsUtf8(s);
    var rest := CanonicalIsEncoded(s[CharLen(s)..]);
    cps := [cp] + rest;
    assert cps[1..] == rest && s == s[..CharLen(s)] + s[CharLen(s)..];
  }
}
