/** String escaping and unescaping, and what printing followed by parsing does to an
    arbitrary byte string. */
module JsonString {
  import opened Bytes

  // ---- escaping ----

  /** Number of continuation bytes a lead byte announces; 0 for ASCII and for bytes that
      cannot lead. */
  function Extra(c: Byte): nat {
    if 0xC0 <= c < 0xE0 then 1
    else if 0xE0 <= c < 0xF0 then 2
    else if 0xF0 <= c < 0xF8 then 3
    else 0
  }

  /** Payload bits of a lead byte. */
  function LeadBits(c: Byte): nat
    requires Extra(c) > 0
  {
    if Extra(c) == 1 then c - 0xC0 else if Extra(c) == 2 then c - 0xE0 else c - 0xF0
  }

  /** How many bytes one round of the escape loop swallows. */
  function Width(s: Text): (n: nat)
    requires s != []
    ensures 1 <= n <= |s|
  {
    if Extra(s[0]) < |s| then 1 + Extra(s[0]) else |s|
  }

  function Shift(cp: nat, next: Byte): nat {
    if Continuation(next) then cp * 64 + (next - 0x80) else cp
  }

  /** Bytes that are not continuation bytes are swallowed without contributing. */
  function Accumulate(cp: nat, t: Text): nat
    decreases |t|
  {
    if t == [] then cp else Accumulate(Shift(cp, t[0]), t[1..])
  }

  function CodePoint(s: Text): nat
    requires s != [] && Extra(s[0]) > 0
  {
    Accumulate(LeadBits(s[0]), s[1..Width(s)])
  }

  lemma CodePointBound(s: Text)
    requires s != [] && Extra(s[0]) > 0
    ensures CodePoint(s) < 0x200000
  {
    var t := s[1..Width(s)];
    var a := LeadBits(s[0]);
    if |t| >= 1 {
      var b := Shift(a, t[0]);
      assert Accumulate(a, t) == Accumulate(b, t[1..]);
      assert b < 64 * (a + 1);
      if |t| >= 2 {
        var c := Shift(b, t[1]);
        assert t[1..][1..] == t[2..];
        assert Accumulate(b, t[1..]) == Accumulate(c, t[2..]);
        assert c < 64 * (b + 1);
        if |t| >= 3 {
          assert t[2..][1..] == [];
          assert Accumulate(c, t[2..]) == Shift(c, t[2]);
        }
      }
    }
  }

  function UnicodeEscape(n: nat): Text
    requires n < 0x10000
  {
    [BACKSLASH, LETTER_U] + Hex4(n)
  }

  function HighSurrogate(cp: nat): nat
    requires 0x10000 <= cp
  {
    0xD800 + (cp - 0x10000) / 1024
  }

  function LowSurrogate(cp: nat): nat
    requires 0x10000 <= cp
  {
    0xDC00 + (cp - 0x10000) % 1024
  }

  function EscapedAscii(c: Byte): Text
    requires c < 0x80
  {
    if c == QUOTE then [BACKSLASH, QUOTE]
    else if c == BACKSLASH then [BACKSLASH, BACKSLASH]
    else if c == 8 then [BACKSLASH, 98]
    else if c == 12 then [BACKSLASH, 102]
    else if c == LF then [BACKSLASH, 110]
    else if c == CR then [BACKSLASH, 114]
    else if c == TAB then [BACKSLASH, 116]
    else if c < SPACE then UnicodeEscape(c)
    else [c]
  }

  /** What one round of the escape loop appends. */
  function EscapedHead(s: Text): Text
    requires s != []
  {
    if s[0] < 0x80 then EscapedAscii(s[0])
    else if Extra(s[0]) == 0 then [QUESTION]
    else
      var cp := CodePoint(s);
      CodePointBound(s);
      if cp < 0x10000 then UnicodeEscape(cp)
      else UnicodeEscape(HighSurrogate(cp)) + UnicodeEscape(LowSurrogate(cp))
  }

  function Escaped(s: Text): Text {
    if s == [] then [] else EscapedHead(s) + Escaped(s[Width(s)..])
  }

  lemma EscapedUnroll(s: Text, i: nat)
    requires i < |s|
    ensures Escaped(s[i..]) == EscapedHead(s[i..]) + Escaped(s[i + Width(s[i..])..])
  {
    assert s[i..][Width(s[i..])..] == s[i + Width(s[i..])..];
  }

  /** Takes up to `extra` more bytes after position `at` into the code point. */
  method TakeContinuations(s: Text, at: nat, lead: nat, extra: nat) returns (codepoint: nat, next: nat)
    requires at < |s|
    ensures var more := if at + 1 + extra <= |s| then s[at + 1..at + 1 + extra] else s[at + 1..];
            codepoint == Accumulate(lead, more) && next == at + 1 + |more|
  {
    ghost var more := if at + 1 + extra <= |s| then s[at + 1..at + 1 + extra] else s[at + 1..];
    hide Accumulate;
    assert more[0..] == more;
    codepoint, next := lead, at;
    var j := 0;
    while j < extra && next + 1 < |s|
      invariant 0 <= j <= |more| && next == at + j
      invariant Accumulate(codepoint, more[j..]) == Accumulate(lead, more)
    {
      next := next + 1;
      AccumulateNext(codepoint, more, j);
      if Continuation(s[next]) {
        codepoint := codepoint * 64 + (s[next] - 0x80);
      }
      j := j + 1;
    }
    AccumulateNext(codepoint, more, j);
    next := next + 1;
  }

  /** Decodes the multi-byte character at `i`; `next` is where the loop resumes. */
  method DecodeAt(s: Text, i: nat) returns (codepoint: nat, next: nat)
    requires i < |s| && Extra(s[i]) > 0
    ensures codepoint == CodePoint(s[i..])
    ensures next == i + Width(s[i..])
  {
    hide Accumulate;
    var c := s[i];
    var extra: nat;
    if c < 0xE0 { codepoint, extra := c - 0xC0, 1; }
    else if c < 0xF0 { codepoint, extra := c - 0xE0, 2; }
    else { codepoint, extra := c - 0xF0, 3; }
    assert s[i..][1..Width(s[i..])] == if i + 1 + extra <= |s| then s[i + 1..i + 1 + extra] else s[i + 1..];
    codepoint, next := TakeContinuations(s, i, codepoint, extra);
  }

  lemma AccumulateNext(cp: nat, t: Text, j: nat)
    requires j <= |t|
    ensures j < |t| ==> Accumulate(cp, t[j..]) == Accumulate(Shift(cp, t[j]), t[j + 1..])
    ensures j == |t| ==> Accumulate(cp, t[j..]) == cp
  {
    if j < |t| { assert t[j..][1..] == t[j + 1..]; }
  }

  /** One round: the character at `i` is escaped, and `next` is where the loop goes on. */
  method EscapeNext(s: Text, i: nat) returns (piece: Text, next: nat)
    requires i < |s|
    ensures piece == EscapedHead(s[i..]) && next == i + Width(s[i..])
  {
    next := i + 1;
    if s[i] < 0x80 {
      piece := EscapedAscii(s[i]);
    } else if Extra(s[i]) == 0 {
      piece := [QUESTION];
    } else {
      var codepoint;
      codepoint, next := DecodeAt(s, i);
      CodePointBound(s[i..]);
      if codepoint < 0x10000 {
        piece := UnicodeEscape(codepoint);
      } else {
        piece := UnicodeEscape(HighSurrogate(codepoint)) + UnicodeEscape(LowSurrogate(codepoint));
      }
    }
  }

  /** The escape loop. */
  method Escape(s: Text) returns (out: Text)
    ensures out == Escaped(s)
  {
    hide EscapedHead;
    out := [];
    var i := 0;
    while i < |s|
      invariant 0 <= i <= |s|
      invariant out + Escaped(s[i..]) == Escaped(s)
    {
      EscapedUnroll(s, i);
      var piece, next := EscapeNext(s, i);
      Assoc(out, piece, Escaped(s[next..]));
      out := out + piece;
      i := next;
    }
  }

  // ---- unescaping ----

  /** How many bytes one round of the string loops consumes. */
  function ChunkLen(s: Text): (n: nat)
    requires s != []
    ensures 1 <= n <= |s|
  {
    if s[0] != BACKSLASH || |s| == 1 then 1
    else if s[1] == LETTER_U && |s| >= 6 && ReadHex4(s[2..6]) >= 0 then 6
    else 2
  }

  function ShortEscape(c: Byte): Byte {
    if c == 98 then 8
    else if c == 102 then 12
    else if c == 110 then LF
    else if c == 114 then CR
    else if c == 116 then TAB
    else c
  }

  /** What one round of the string loops appends. */
  function ChunkOut(s: Text): Text
    requires s != []
  {
    if s[0] != BACKSLASH || |s| == 1 then [s[0]]
    else if s[1] != LETTER_U then [ShortEscape(s[1])]
    else if |s| >= 6 && ReadHex4(s[2..6]) >= 0 then
      HexBound(s[2..6]);
      Utf8(ReadHex4(s[2..6]))
    else []
  }

  function Unescaped(s: Text): Text {
    if s == [] then [] else ChunkOut(s) + Unescaped(s[ChunkLen(s)..])
  }

  lemma UnescapedUnroll(s: Text, i: nat)
    requires i < |s|
    ensures Unescaped(s[i..]) == ChunkOut(s[i..]) + Unescaped(s[i + ChunkLen(s[i..])..])
  {
    assert s[i..][ChunkLen(s[i..])..] == s[i + ChunkLen(s[i..])..];
  }

  /** Reads the escape whose second character is at `i`: the bytes it stands for, and the
      index of its last character. */
  method ReadEscape(s: Text, i: nat) returns (piece: Text, last: nat)
    requires 1 <= i < |s| && s[i - 1] == BACKSLASH
    ensures piece == ChunkOut(s[i - 1..])
    ensures last == i - 2 + ChunkLen(s[i - 1..])
  {
    last := i;
    if s[i] == LETTER_U {
      piece := [];
      if i + 4 < |s| {
        assert s[i + 1..i + 5] == s[i - 1..][2..6];
        HexBound(s[i + 1..i + 5]);
        var codepoint := ReadHex4(s[i + 1..i + 5]);
        if codepoint >= 0 {
          piece := Utf8(codepoint);
          last := i + 4;
        }
      }
    } else {
      piece := [ShortEscape(s[i])];
    }
  }

  /** One round: a byte, or an escape sequence as a whole; `next` is where the loop goes on. */
  method UnescapeNext(s: Text, i: nat) returns (piece: Text, next: nat)
    requires i < |s|
    ensures piece == ChunkOut(s[i..]) && next == i + ChunkLen(s[i..])
  {
    var last := i;
    piece := [s[i]];
    if s[i] == BACKSLASH && i + 1 < |s| {
      piece, last := ReadEscape(s, i + 1);
    }
    next := last + 1;
  }

  /** The unescape loop. */
  method Unescape(s: Text) returns (out: Text)
    ensures out == Unescaped(s)
  {
    hide ChunkOut;
    out := [];
    var i := 0;
    while i < |s|
      invariant 0 <= i <= |s|
      invariant out + Unescaped(s[i..]) == Unescaped(s)
    {
      UnescapedUnroll(s, i);
      var piece, next := UnescapeNext(s, i);
      Assoc(out, piece, Unescaped(s[next..]));
      out := out + piece;
      i := next;
    }
  }

  // ---- framing ----

  /** A parsed value together with the input that follows it. */
  datatype Parsed<T> = Parsed(value: T, rest: Text)

  /** The body loop of the string parser, from just after the opening quote. */
  function StringBody(s: Text): (r: Parsed<Text>)
    ensures |r.rest| <= |s|
  {
    if s == [] then Parsed([], [])
    else if s[0] == QUOTE then Parsed([], s[1..])
    else
      var tail := StringBody(s[ChunkLen(s)..]);
      Parsed(ChunkOut(s) + tail.value, tail.rest)
  }

  /** Text that may stand between two quotes: no bare quote, no unfinished escape. */
  predicate Closed(b: Text) {
    b == [] ||
    (&& b[0] != QUOTE
     && (b[0] == BACKSLASH ==> |b| >= 2 && (b[1] == LETTER_U ==>
           |b| >= 6 && forall i | 2 <= i < 6 :: HexVal(b[i]) >= 0))
     && Closed(b[ChunkLen(b)..]))
  }

  /** The string parser stops exactly at the quote that ends a closed body, and agrees with
      the stand-alone unescaper on it. */
  lemma {:induction false} BodyFraming(b: Text, rest: Text)
    requires Closed(b)
    ensures StringBody(b + [QUOTE] + rest) == Parsed(Unescaped(b), rest)
  {
    var s := b + [QUOTE] + rest;
    if b != [] {
      var n := ChunkLen(b);
      if |b| >= 6 {
        assert s[2..6] == b[2..6];
      }
      assert ChunkLen(s) == n && ChunkOut(s) == ChunkOut(b);
      assert s[n..] == b[n..] + [QUOTE] + rest;
      BodyFraming(b[n..], rest);
    } else {
      assert s[1..] == rest;
    }
  }

  // ---- printing, then parsing ----

  /** What the character at the front turns into when it is escaped and read back. */
  function NormalHead(s: Text): Text
    requires s != []
  {
    if s[0] < 0x80 then [s[0]]
    else if Extra(s[0]) == 0 then [QUESTION]
    else
      var cp := CodePoint(s);
      CodePointBound(s);
      if cp < 0x10000 then Utf8(cp) else Utf8(HighSurrogate(cp)) + Utf8(LowSurrogate(cp))
  }

  function Normal(s: Text): Text {
    if s == [] then [] else NormalHead(s) + Normal(s[Width(s)..])
  }

  lemma UnicodeEscapeStep(n: nat, t: Text)
    requires n < 0x10000
    ensures Unescaped(UnicodeEscape(n) + t) == Utf8(n) + Unescaped(t)
    ensures Closed(t) ==> Closed(UnicodeEscape(n) + t)
  {
    var s := UnicodeEscape(n) + t;
    HexRoundTrip(n);
    assert s[2..6] == Hex4(n);
    assert forall i | 2 <= i < 6 :: s[i] == Hex4(n)[i - 2];
    assert s[6..] == t;
  }

  lemma PlainStep(c: Byte, t: Text)
    requires c != QUOTE && c != BACKSLASH
    ensures Unescaped([c] + t) == [c] + Unescaped(t)
    ensures Closed(t) ==> Closed([c] + t)
  {
    assert ([c] + t)[1..] == t;
  }

  lemma ShortStep(c: Byte, t: Text)
    requires c != LETTER_U
    ensures Unescaped([BACKSLASH, c] + t) == [ShortEscape(c)] + Unescaped(t)
    ensures Closed(t) ==> Closed([BACKSLASH, c] + t)
  {
    assert ([BACKSLASH, c] + t)[2..] == t;
  }

  lemma AsciiRoundTrip(c: Byte, t: Text)
    requires c < 0x80
    ensures Unescaped(EscapedAscii(c) + t) == [c] + Unescaped(t)
    ensures Closed(t) ==> Closed(EscapedAscii(c) + t)
  {
    if c == QUOTE || c == BACKSLASH || c == 8 || c == 12 || c == LF || c == CR || c == TAB {
      var e := EscapedAscii(c)[1];
      assert EscapedAscii(c) == [BACKSLASH, e] && ShortEscape(e) == c && e != LETTER_U;
      ShortStep(e, t);
    } else if c < SPACE {
      UnicodeEscapeStep(c, t);
    } else {
      PlainStep(c, t);
    }
  }

  lemma PairRoundTrip(cp: nat, t: Text)
    requires 0x10000 <= cp < 0x200000
    ensures Unescaped(UnicodeEscape(HighSurrogate(cp)) + UnicodeEscape(LowSurrogate(cp)) + t)
         == Utf8(HighSurrogate(cp)) + Utf8(LowSurrogate(cp)) + Unescaped(t)
    ensures Closed(t) ==> Closed(UnicodeEscape(HighSurrogate(cp)) + UnicodeEscape(LowSurrogate(cp)) + t)
  {
    var hi, lo := HighSurrogate(cp), LowSurrogate(cp);
    UnicodeEscapeStep(lo, t);
    UnicodeEscapeStep(hi, UnicodeEscape(lo) + t);
    assert UnicodeEscape(hi) + UnicodeEscape(lo) + t == UnicodeEscape(hi) + (UnicodeEscape(lo) + t);
    assert Utf8(hi) + Utf8(lo) + Unescaped(t) == Utf8(hi) + (Utf8(lo) + Unescaped(t));
  }

  lemma HeadRoundTrip(s: Text, t: Text)
    requires s != []
    ensures Unescaped(EscapedHead(s) + t) == NormalHead(s) + Unescaped(t)
    ensures Closed(t) ==> Closed(EscapedHead(s) + t)
  {
    if s[0] < 0x80 {
      AsciiRoundTrip(s[0], t);
    } else if Extra(s[0]) == 0 {
      PlainStep(QUESTION, t);
    } else {
      CodePointBound(s);
      if CodePoint(s) < 0x10000 {
        UnicodeEscapeStep(CodePoint(s), t);
      } else {
        PairRoundTrip(CodePoint(s), t);
      }
    }
  }

  /** Escaping any byte string, valid UTF-8 or not, gives a closed body, and reading it back
      gives the normal form. */
  lemma {:induction false} EscapeThenUnescape(s: Text)
    ensures Closed(Escaped(s))
    ensures Unescaped(Escaped(s)) == Normal(s)
  {
    if s != [] {
      EscapeThenUnescape(s[Width(s)..]);
      HeadRoundTrip(s, Escaped(s[Width(s)..]));
    }
  }

  predicate Printable(s: Text) {
    forall i | 0 <= i < |s| :: 0x20 <= s[i] < 0x80
  }

  lemma UnicodeEscapeIsPrintable(n: nat)
    requires n < 0x10000
    ensures Printable(UnicodeEscape(n))
  {
    assert forall d: nat | d < 16 :: 0x20 <= HexDigit(d) < 0x80;
  }

  /** Escaped text is printable ASCII. */
  lemma {:induction false} EscapedIsPrintable(s: Text)
    ensures Printable(Escaped(s))
  {
    if s != [] {
      EscapedIsPrintable(s[Width(s)..]);
      assert Printable(EscapedHead(s)) by {
        if s[0] < 0x80 {
          if s[0] < SPACE { UnicodeEscapeIsPrintable(s[0]); }
        } else if Extra(s[0]) > 0 {
          CodePointBound(s);
          var cp := CodePoint(s);
          if cp < 0x10000 {
            UnicodeEscapeIsPrintable(cp);
          } else {
            UnicodeEscapeIsPrintable(HighSurrogate(cp));
            UnicodeEscapeIsPrintable(LowSurrogate(cp));
          }
        }
      }
    }
  }

  lemma NormalHeadIsCanonical(s: Text, t: Text)
    requires s != [] && Canonical(t)
    ensures Canonical(NormalHead(s) + t)
  {
    if s[0] < 0x80 {
      CanonicalCons(s[0], t);
    } else if Extra(s[0]) == 0 {
      CanonicalCons(QUESTION, t);
    } else {
      CodePointBound(s);
      var cp := CodePoint(s);
      if cp < 0x10000 {
        CanonicalCons(cp, t);
      } else {
        var hi, lo := HighSurrogate(cp), LowSurrogate(cp);
        CanonicalCons(lo, t);
        CanonicalCons(hi, Utf8(lo) + t);
        Assoc(Utf8(hi), Utf8(lo), t);
      }
    }
  }

  /** Every normal form is a run of shortest-form 1-3 byte characters. */
  lemma {:induction false} NormalIsCanonical(s: Text)
    ensures Canonical(Normal(s))
  {
    if s != [] {
      NormalIsCanonical(s[Width(s)..]);
      NormalHeadIsCanonical(s, Normal(s[Width(s)..]));
    }
  }

  /** A shortest-form character at the front survives. */
  lemma CharSurvives(s: Text)
    requires CharLen(s) > 0
    ensures Width(s) == CharLen(s)
    ensures NormalHead(s) == s[..CharLen(s)]
  {
    var n := CharLen(s);
    if n >= 2 {
      var t := s[1..n];
      var a := LeadBits(s[0]);
      var b := Shift(a, t[0]);
      assert CodePoint(s) == Accumulate(b, t[1..]);
      if n == 2 {
        assert t[1..] == [];
      } else {
        assert t[1..][1..] == [];
        assert CodePoint(s) == Shift(b, t[1]);
      }
    }
  }

  lemma {:induction false} CanonicalIsNormal(s: Text)
    requires Canonical(s)
    ensures Normal(s) == s
  {
    if s != [] {
      CharSurvives(s);
      CanonicalIsNormal(s[CharLen(s)..]);
    }
  }

  /** Printing then parsing is the identity exactly on the canonical byte strings, and is
      idempotent on all of them. */
  lemma NormalFixpoints(s: Text)
    ensures Normal(s) == s <==> Canonical(s)
    ensures Normal(Normal(s)) == Normal(s)
  {
    NormalIsCanonical(s);
    CanonicalIsNormal(Normal(s));
    if Canonical(s) {
      CanonicalIsNormal(s);
    }
  }

  /** A well-formed four byte character is one that does not come back: it returns as two
      three-byte characters, one for each surrogate. */
  lemma FourByteCharacterChanges()
    ensures Normal([0xF0, 0x9F, 0x98, 0x80]) == [0xED, 0xA0, 0xBD, 0xED, 0xB8, 0x80]
  {
    var s: Text := [0xF0, 0x9F, 0x98, 0x80];
    var t: Text := s[1..4];
    assert t == [0x9F, 0x98, 0x80] && t[1..] == [0x98, 0x80] && t[1..][1..] == [0x80] && t[1..][1..][1..] == [];
    assert CodePoint(s) == Accumulate(0, t) == Accumulate(31, t[1..]) == Accumulate(2008, t[1..][1..]) == 0x1F600;
    assert s[Width(s)..] == [];
    assert NormalHead(s) == Utf8(0xD83D) + Utf8(0xDE00);
    assert Normal(s) == NormalHead(s) + Normal([]);
  }

  /** Every character of four bytes in shortest form comes back as its two surrogates. */
  lemma SupplementaryCharacter(b0: Byte, b1: Byte, b2: Byte, b3: Byte, cp: nat, t: Text) returns (hi: nat, lo: nat)
    requires 0xF0 <= b0 <= 0xF4 && 0x80 <= b1 <= 0xBF && 0x80 <= b2 <= 0xBF && 0x80 <= b3 <= 0xBF
    requires cp == (b0 as int - 0xF0) * 262144 + (b1 as int - 0x80) * 4096 + (b2 as int - 0x80) * 64 + (b3 as int - 0x80)
    requires 0x10000 <= cp <= 0x10FFFF
    ensures 0xD800 <= hi < 0xDC00 && 0xDC00 <= lo < 0xE000 && 0x10000 + (hi - 0xD800) * 1024 + (lo - 0xDC00) == cp
    ensures Normal([b0, b1, b2, b3] + t) == Utf8(hi) + Utf8(lo) + Normal(t)
    ensures Escaped([b0, b1, b2, b3] + t) == UnicodeEscape(hi) + UnicodeEscape(lo) + Escaped(t)
  {
    var s := [b0, b1, b2, b3] + t;
    var more: Text := [b1, b2, b3];
    assert s[1..4] == more && s[4..] == t;
    assert more[1..] == [b2, b3] && more[1..][1..] == [b3] && more[1..][1..][1..] == [];
    var c1, c2 := Shift(b0 - 0xF0, b1), Shift(Shift(b0 - 0xF0, b1), b2);
    assert Accumulate(b0 - 0xF0, more) == Accumulate(c1, more[1..]) == Accumulate(c2, more[1..][1..]) == Shift(c2, b3);
    assert CodePoint(s) == cp;
    hi, lo := HighSurrogate(cp), LowSurrogate(cp);
    hide CodePoint, Accumulate;
    assert NormalHead(s) == Utf8(hi) + Utf8(lo);
    assert EscapedHead(s) == UnicodeEscape(hi) + UnicodeEscape(lo);
  }

  // ---- malformed text ----

  /** A byte that can neither begin nor continue a character that the loop knows becomes '?'; so
      does a continuation byte out of place. */
  lemma StrayByte(b: Byte, t: Text)
    requires 0x80 <= b < 0xC0 || 0xF8 <= b
    ensures Normal([b] + t) == Ascii("?") + Normal(t)
  {
    assert ([b] + t)[1..] == t && Ascii("?") == [QUESTION];
  }

  /** A character that breaks off takes the following byte with it, if there is one, and counts as
      its leading bits. */
  lemma BrokenPair(b: Byte, next: Byte, t: Text)
    requires 0xC0 <= b < 0xE0 && !(0x80 <= next <= 0xBF)
    ensures Normal([b, next] + t) == [b - 0xC0] + Normal(t)
    ensures Normal([b]) == [b - 0xC0]
  {
    var s := [b, next] + t;
    assert s[1..2] == [next] && s[2..] == t;
    assert CodePoint(s) == Accumulate(b - 0xC0, [next]) == b - 0xC0 by { assert [next][1..] == []; }
    assert CodePoint([b]) == Accumulate(b - 0xC0, []) by { assert [b][1..1] == []; }
    assert [b][1..] == [] && Normal([b]) == NormalHead([b]) + Normal([]);
  }

  /** Overlong forms of two bytes are read as what they encode. */
  lemma OverlongPair(b: Byte, next: Byte, t: Text)
    requires 0xC0 <= b < 0xC2 && 0x80 <= next <= 0xBF
    ensures Normal([b, next] + t) == [(b as int - 0xC0) * 64 + (next as int - 0x80)] + Normal(t)
  {
    var s := [b, next] + t;
    assert s[1..2] == [next] && s[2..] == t;
    assert CodePoint(s) == Accumulate(b - 0xC0, [next]) == (b - 0xC0) * 64 + (next - 0x80) by { assert [next][1..] == []; }
  }
}
