/** The spellings of a JSON string (RFC 8259 section 7), and what each of them denotes. */
module JsonSpelling {
  import opened Bytes
  import opened JsonString

  /** The escapes of one letter. */
  datatype Short = QuoteMark | ReverseSolidus | Solidus | Backspace | FormFeed | LineFeed | CarriageReturn | Tab

  /** A hexadecimal digit, by its value and its case. */
  datatype Nibble = Nibble(value: nat, upper: bool)

  /** One piece of the text between the quotes: a byte that stands for itself; an escape of one
      letter; four hexadecimal digits; or a backslash before a character that needs none, which
      the parser lets pass. */
  datatype Piece =
    | Plain(byte: Byte)
    | OneLetter(short: Short)
    | Unit(n3: Nibble, n2: Nibble, n1: Nibble, n0: Nibble)
    | Needless(byte: Byte)

  function Letter(e: Short): char {
    match e
    case QuoteMark => '"'
    case ReverseSolidus => '\\'
    case Solidus => '/'
    case Backspace => 'b'
    case FormFeed => 'f'
    case LineFeed => 'n'
    case CarriageReturn => 'r'
    case Tab => 't'
  }

  /** The control characters by their numbers in RFC 20. */
  function Control(e: Short): Byte {
    match e
    case QuoteMark => 34
    case ReverseSolidus => 92
    case Solidus => 47
    case Backspace => 8
    case FormFeed => 12
    case LineFeed => 10
    case CarriageReturn => 13
    case Tab => 9
  }

  function DigitText(n: Nibble): Text
    requires n.value < 16
  {
    Ascii([(if n.upper then "0123456789ABCDEF" else "0123456789abcdef")[n.value]])
  }

  predicate ProperPiece(p: Piece) {
    match p
    case Plain(b) => b != 34 && b != 92
    case OneLetter(_) => true
    case Unit(a, b, c, d) => a.value < 16 && b.value < 16 && c.value < 16 && d.value < 16
    case Needless(b) => b !in Ascii("\"\\/bfnrtu")
  }

  predicate ProperPieces(ps: seq<Piece>) {
    forall i | 0 <= i < |ps| :: ProperPiece(ps[i])
  }

  type Spelling = ps: seq<Piece> | ProperPieces(ps)

  function PieceText(p: Piece): Text
    requires ProperPiece(p)
  {
    match p
    case Plain(b) => [b]
    case OneLetter(e) => Ascii("\\") + Ascii([Letter(e)])
    case Unit(a, b, c, d) => Ascii("\\u") + (DigitText(a) + DigitText(b) + DigitText(c) + DigitText(d))
    case Needless(b) => Ascii("\\") + [b]
  }

  function Spelled(ps: Spelling): Text {
    if ps == [] then [] else PieceText(ps[0]) + Spelled(ps[1..])
  }

  function UnitValue(p: Piece): nat
    requires p.Unit?
  {
    p.n3.value * 4096 + p.n2.value * 256 + p.n1.value * 16 + p.n0.value
  }

  /** A code unit stands for its UTF-8 encoding, surrogates for one of three bytes each. */
  function PieceMeaning(p: Piece): Text
    requires ProperPiece(p)
  {
    match p
    case Plain(b) => [b]
    case OneLetter(e) => [Control(e)]
    case Unit(_, _, _, _) => Utf8(UnitValue(p))
    case Needless(b) => [b]
  }

  function Denoted(ps: Spelling): Text {
    if ps == [] then [] else PieceMeaning(ps[0]) + Denoted(ps[1..])
  }

  // ---- the string parser reads every spelling ----

  lemma DigitRead(n: Nibble)
    requires n.value < 16
    ensures |DigitText(n)| == 1 && HexVal(DigitText(n)[0]) == n.value
  {}

  lemma UnitStep(p: Piece, t: Text)
    requires p.Unit? && ProperPiece(p)
    ensures Unescaped(PieceText(p) + t) == Utf8(UnitValue(p)) + Unescaped(t)
    ensures Closed(t) ==> Closed(PieceText(p) + t)
  {
    DigitRead(p.n3);
    DigitRead(p.n2);
    DigitRead(p.n1);
    DigitRead(p.n0);
    var s := PieceText(p) + t;
    hide DigitText, HexVal;
    assert s[0] == BACKSLASH && s[1] == LETTER_U && s[6..] == t;
    assert s[2] == DigitText(p.n3)[0] && s[3] == DigitText(p.n2)[0] && s[4] == DigitText(p.n1)[0]
        && s[5] == DigitText(p.n0)[0];
    assert s[2..6] == [s[2], s[3], s[4], s[5]];
    assert ReadHex4(s[2..6]) == UnitValue(p);
  }

  lemma PieceStep(p: Piece, t: Text)
    requires ProperPiece(p)
    ensures Unescaped(PieceText(p) + t) == PieceMeaning(p) + Unescaped(t)
    ensures Closed(t) ==> Closed(PieceText(p) + t)
  {
    match p
    case Plain(b) => PlainStep(b, t);
    case OneLetter(e) =>
      var c := Ascii([Letter(e)])[0];
      assert PieceText(p) == [BACKSLASH, c];
      ShortStep(c, t);
    case Unit(_, _, _, _) => UnitStep(p, t);
    case Needless(b) =>
      LettersAre(b);
      assert PieceText(p) == [BACKSLASH, b];
      ShortStep(b, t);
  }

  lemma LettersAre(b: Byte)
    ensures b in Ascii("\"\\/bfnrtu") <==> b in [34, 92, 47, 98, 102, 110, 114, 116, 117]
  {
    assert Ascii("\"\\/bfnrtu") == [34, 92, 47, 98, 102, 110, 114, 116, 117];
  }

  /** Every spelling may stand between quotes, and is unescaped to what it denotes. */
  lemma {:induction false} SpellingRead(ps: Spelling)
    ensures Closed(Spelled(ps)) && Unescaped(Spelled(ps)) == Denoted(ps)
  {
    if ps != [] {
      SpellingRead(ps[1..]);
      PieceStep(ps[0], Spelled(ps[1..]));
    }
  }

  // ---- every text that may stand between quotes is a spelling ----

  function NibbleOf(b: Byte): Nibble {
    if 48 <= b <= 57 then Nibble(b - 48, false)
    else if 97 <= b <= 102 then Nibble(b - 87, false)
    else if 65 <= b <= 70 then Nibble(b - 55, true)
    else Nibble(0, false)
  }

  function PieceAt(b: Text): Piece
    requires b != []
  {
    if b[0] != BACKSLASH || |b| == 1 then Plain(b[0])
    else if b[1] == LETTER_U && |b| >= 6 then Unit(NibbleOf(b[2]), NibbleOf(b[3]), NibbleOf(b[4]), NibbleOf(b[5]))
    else if b[1] == 34 then OneLetter(QuoteMark)
    else if b[1] == 92 then OneLetter(ReverseSolidus)
    else if b[1] == 47 then OneLetter(Solidus)
    else if b[1] == 98 then OneLetter(Backspace)
    else if b[1] == 102 then OneLetter(FormFeed)
    else if b[1] == 110 then OneLetter(LineFeed)
    else if b[1] == 114 then OneLetter(CarriageReturn)
    else if b[1] == 116 then OneLetter(Tab)
    else Needless(b[1])
  }

  function Pieces(b: Text): seq<Piece> {
    if b == [] then [] else [PieceAt(b)] + Pieces(b[ChunkLen(b)..])
  }

  lemma UnitAtFront(b: Text)
    requires Closed(b) && |b| >= 2 && b[0] == BACKSLASH && b[1] == LETTER_U
    ensures ProperPiece(PieceAt(b)) && PieceText(PieceAt(b)) == b[..ChunkLen(b)]
  {
    HexIsRead(b);
    HexText(b[2]);
    HexText(b[3]);
    HexText(b[4]);
    HexText(b[5]);
    hide DigitText, NibbleOf, HexVal, Closed, ReadHex4;
    assert b[..6] == [BACKSLASH, LETTER_U] + ([b[2]] + [b[3]] + [b[4]] + [b[5]]);
  }

  lemma PieceAtFront(b: Text)
    requires b != [] && Closed(b)
    ensures ProperPiece(PieceAt(b)) && PieceText(PieceAt(b)) == b[..ChunkLen(b)]
  {
    if b[0] == BACKSLASH {
      if b[1] == LETTER_U {
        UnitAtFront(b);
      } else {
        LettersAre(b[1]);
        hide ReadHex4, Closed;
        assert b[..2] == [BACKSLASH, b[1]];
      }
    }
  }

  lemma HexText(b: Byte)
    requires HexVal(b) >= 0
    ensures NibbleOf(b).value < 16 && DigitText(NibbleOf(b)) == [b]
  {}

  lemma HexIsRead(b: Text)
    requires |b| >= 6 && b[0] == BACKSLASH && b[1] == LETTER_U && forall i | 2 <= i < 6 :: HexVal(b[i]) >= 0
    ensures ChunkLen(b) == 6
  {
    assert b[2..6][0] == b[2] && b[2..6][1] == b[3] && b[2..6][2] == b[4] && b[2..6][3] == b[5];
  }

  /** Nothing is missing from the spellings. */
  lemma {:induction false} ClosedIsSpelled(b: Text)
    requires Closed(b)
    ensures ProperPieces(Pieces(b)) && Spelled(Pieces(b)) == b && Denoted(Pieces(b)) == Unescaped(b)
  {
    if b != [] {
      PieceAtFront(b);
      var rest := b[ChunkLen(b)..];
      ClosedIsSpelled(rest);
      assert Pieces(b)[1..] == Pieces(rest);
      assert b == b[..ChunkLen(b)] + rest;
      SpellingRead(Pieces(b));
    }
  }

  /** The spelling that is printed for a byte string. */
  function Printed(s: Text): Spelling {
    EscapeThenUnescape(s);
    ClosedIsSpelled(Escaped(s));
    Pieces(Escaped(s))
  }

  /** It denotes the normal form of the byte string. */
  lemma PrintedSpelling(s: Text)
    ensures Spelled(Printed(s)) == Escaped(s) && Denoted(Printed(s)) == Normal(s)
  {
    EscapeThenUnescape(s);
    ClosedIsSpelled(Escaped(s));
  }

  // ---- what is printed for each character ----

  /** The four lower-case digits of a code unit. */
  function LowerUnit(n: nat): (p: Piece)
    requires n < 0x10000
    ensures p.Unit? && ProperPiece(p) && UnitValue(p) == n
    ensures !p.n3.upper && !p.n2.upper && !p.n1.upper && !p.n0.upper
  {
    Unit(Nibble(n / 16 / 16 / 16, false), Nibble(n / 16 / 16 % 16, false), Nibble(n / 16 % 16, false),
         Nibble(n % 16, false))
  }

  lemma LowerDigit(d: nat)
    requires d < 16
    ensures DigitText(Nibble(d, false)) == [HexDigit(d)]
  {}

  lemma UnitIsPrinted(n: nat)
    requires n < 0x10000
    ensures UnicodeEscape(n) == PieceText(LowerUnit(n))
  {
    LowerDigit(n / 16 / 16 / 16);
    LowerDigit(n / 16 / 16 % 16);
    LowerDigit(n / 16 % 16);
    LowerDigit(n % 16);
    hide DigitText, HexDigit;
    assert Ascii("\\u") == [BACKSLASH, LETTER_U];
  }

  lemma CodePointOf(cp: nat, t: Text)
    requires 0x80 <= cp < 0x10000
    ensures var s := Utf8(cp) + t; Width(s) == |Utf8(cp)| && Extra(s[0]) > 0 && CodePoint(s) == cp
  {
    var s := Utf8(cp) + t;
    if cp < 0x800 {
      assert s[1..2] == [s[1]] && [s[1]][1..] == [];
      assert CodePoint(s) == Accumulate(Shift(LeadBits(s[0]), s[1]), []);
    } else {
      assert s[1..3] == [s[1], s[2]] && [s[1], s[2]][1..] == [s[2]] && [s[2]][1..] == [];
      assert cp / 4096 == cp / 64 / 64;
      assert Shift(LeadBits(s[0]), s[1]) == cp / 64;
      assert CodePoint(s) == Accumulate(cp / 64, [s[2]]) == Shift(cp / 64, s[2]);
    }
  }

  /** Seven characters are printed with a backslash and a letter; the solidus is none of them. */
  lemma PrintedShort(e: Short, t: Text)
    requires e != Solidus
    ensures Escaped([Control(e)] + t) == PieceText(OneLetter(e)) + Escaped(t)
  {
    var s := [Control(e)] + t;
    assert s[1..] == t;
    assert PieceText(OneLetter(e)) == [BACKSLASH, Letter(e) as int];
  }

  /** All others from the space to the end of ASCII are printed as they are. */
  lemma PrintedPlain(b: Byte, t: Text)
    requires 0x20 <= b < 0x80 && b !in Ascii("\"\\")
    ensures Escaped([b] + t) == [b] + Escaped(t)
  {
    assert Ascii("\"\\") == [QUOTE, BACKSLASH];
    assert ([b] + t)[1..] == t;
  }

  /** The other control characters are printed as four lower-case digits. */
  lemma PrintedControl(b: Byte, t: Text)
    requires b < 0x20 && b !in {8, 9, 10, 12, 13}
    ensures Escaped([b] + t) == PieceText(LowerUnit(b)) + Escaped(t)
  {
    UnitIsPrinted(b);
    hide PieceText, LowerUnit, UnicodeEscape;
    assert ([b] + t)[1..] == t;
  }

  /** So are the characters of two and three bytes. */
  lemma PrintedUnit(cp: nat, t: Text)
    requires 0x80 <= cp < 0x10000
    ensures Escaped(Utf8(cp) + t) == PieceText(LowerUnit(cp)) + Escaped(t)
  {
    UnitIsPrinted(cp);
    CodePointOf(cp, t);
    var s := Utf8(cp) + t;
    assert s[0] >= 0x80;
    hide PieceText, LowerUnit, UnicodeEscape, CodePoint, Width, Extra, EscapedAscii, Utf8;
    assert s[Width(s)..] == t;
  }
}
