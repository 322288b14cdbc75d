/** What the parser makes of texts that are no JSON: it never fails, but reads something. */
module JsonMalformed {
  import opened Bytes
  import opened JsonString
  import opened JsonNumber
  import opened JsonParser
  import opened JsonSpelling
  import opened JsonSyntax

  // ---- values ----

  /** No value at all is null. */
  lemma {:induction false} BlankIsNull(w: Text)
    requires AllSpace(w)
    ensures ParseValue(w) == Parsed(Null, [])
  {
    assert w + [] == w;
    SkipsSpace(w, []);
  }

  /** A word that begins like one of the three counts as null or false, and nothing of it is
      consumed. */
  lemma BrokenWord(s: Text)
    requires s != [] && s[0] in Ascii("tfn")
    requires !(Ascii("true") <= s) && !(Ascii("false") <= s) && !(Ascii("null") <= s)
    ensures ParseValue(s) == Parsed(if s[0] == Ascii("n")[0] then Null else Bool(false), s)
  {
    Words();
    assert Ascii("tfn") == [116, 102, 110];
    assert Ascii("n")[0] == 110;
    NoSkip(s);
  }

  /** Anything else that cannot begin a value counts as zero, and nothing of it is consumed. A
      NUL counts as null, like the end of the text. */
  lemma NoValue(s: Text)
    requires s != [] && !BeginsValue(s[0]) && !IsSpace(s[0])
    ensures ParseValue(s) == Parsed(if s[0] == 0 then Null else Num(0.0), s)
  {
    Beginnings(s[0]);
    hide Ascii, BeginsValue;
    NoSkip(s);
    ScansNothing(s);
  }

  predicate BeginsValue(b: Byte) {
    b in Ascii("\"{[tfn") || b in Ascii("-.eE") || b in Ascii("0123456789")
  }

  lemma Beginnings(b: Byte)
    ensures !BeginsValue(b) ==> b !in [34, 123, 91, 116, 102, 110] && b !in [45, 46, 101, 69] && !IsDigit(b)
  {
    assert Ascii("\"{[tfn") == [34, 123, 91, 116, 102, 110];
    assert Ascii("-.eE") == [45, 46, 101, 69];
    DigitCharacters(b);
  }

  lemma ScansNothing(s: Text)
    requires s != [] && s[0] !in [45, 46, 101, 69] && !IsDigit(s[0]) && !IsSpace(s[0])
    ensures ParseNumber(s) == Parsed(Num(0.0), s)
  {
    assert s[..0] == [] && s[0..] == s;
    assert ScanLiteral(s) == Parsed(Literal(false, [], [], NoExponent), s);
  }

  /** A lone sign or point is consumed, and counts as zero. */
  lemma NoDigits(b: Byte, after: Text)
    requires b in Ascii("-.") && Stops(after)
    ensures ParseValue([b] + after) == Parsed(Num(0.0), after)
  {
    assert Ascii("-.") == [45, 46];
    hide Ascii;
    var s := [b] + after;
    NumberAt(s);
    assert s[1..] == after && after[0..] == after;
    assert DigitRun(after) == 0;
    assert ScanLiteral(s).rest == after && ScanLiteral(s).value.whole + ScanLiteral(s).value.frac == [];
  }

  lemma NumberAt(s: Text)
    requires s != [] && (IsDigit(s[0]) || s[0] in [45, 46])
    ensures ParseValue(s) == Parsed(Num(LiteralValue(ScanLiteral(s).value)), ScanLiteral(s).rest)
  {
    NoSkip(s);
  }

  /** A point or an exponent mark without digits after a number is consumed with it, and does
      not change its value. */
  lemma UnfinishedNumber(whole: Text, b: Byte, after: Text)
    requires whole != [] && AllDigits(whole) && b in Ascii(".eE")
    requires Stops(after) && (after == [] || after[0] !in Ascii("+-"))
    ensures ParseValue(whole + ([b] + after))
         == Parsed(ParseValue(whole).value, after)
    ensures ParseValue(whole) == Parsed(Num(Weighed(whole) as real), [])
  {
    assert Ascii(".eE") == [46, 101, 69] && Ascii("+-") == [43, 45];
    hide Ascii, ParseValue, Weighed, DigitsValue, LiteralValue, ScanLiteral, Stops;
    var s := whole + ([b] + after);
    ScansWhole(whole, b, after);
    assert whole + [] == whole;
    LiteralScan(Literal(false, whole, [], NoExponent), []);
    DigitsAreWeighed(whole);
    WholeAlone(whole, ScanExponentOf(b));
    WholeAlone(whole, NoExponent);
    NumberAt(s);
    NumberAt(whole);
  }

  lemma ScansWhole(whole: Text, b: Byte, after: Text)
    requires whole != [] && AllDigits(whole) && b in [46, 101, 69]
    requires Stops(after) && (after == [] || after[0] !in [43, 45])
    ensures ScanLiteral(whole + ([b] + after)) == Parsed(Literal(false, whole, [], ScanExponentOf(b)), after)
  {
    DigitRunStops(whole, [b] + after);
    assert ([b] + after)[1..] == after && after[0..] == after && after[..0] == [];
    assert DigitRun(after) == 0;
    assert ScanMinus(whole + ([b] + after)) == Parsed(false, whole + ([b] + after));
  }

  function ScanExponentOf(b: Byte): Exponent {
    if b == DOT then NoExponent else Exponent(b, [], [])
  }

  lemma WholeAlone(whole: Text, e: Exponent)
    requires e.Exponent? ==> e.sign == [] && e.digits == []
    requires whole != []
    ensures LiteralValue(Literal(false, whole, [], e)) == DigitsValue(whole) as real
  {
    assert whole + [] == whole;
  }

  // ---- strings ----

  /** A string that is not closed extends to the end of the text. */
  lemma {:induction false} UnclosedBody(b: Text)
    requires Closed(b)
    ensures StringBody(b) == Parsed(Unescaped(b), [])
  {
    if b != [] { UnclosedBody(b[ChunkLen(b)..]); }
  }

  lemma UnclosedString(ps: Spelling)
    ensures ParseValue([QUOTE] + Spelled(ps)) == Parsed(Str(Denoted(ps)), [])
  {
    var s := [QUOTE] + Spelled(ps);
    assert s[1..] == Spelled(ps);
    SpellingRead(ps);
    UnclosedBody(Spelled(ps));
  }

  /** A backslash at the end of the text stands for itself. */
  lemma LoneBackslash()
    ensures StringBody(Ascii("\\")) == Parsed(Ascii("\\"), [])
  {
    var s: Text := [BACKSLASH];
    assert Ascii("\\") == s;
    assert s[ChunkLen(s)..] == [] && ChunkOut(s) == s;
    assert s + StringBody([]).value == s;
  }

  predicate HexCharacter(b: Byte) {
    b in Ascii("0123456789abcdefABCDEF")
  }

  lemma HexCharacters(b: Byte)
    ensures HexCharacter(b) <==> HexVal(b) >= 0
  {
    assert Ascii("0123456789abcdefABCDEF")
        == [48, 49, 50, 51, 52, 53, 54, 55, 56, 57, 97, 98, 99, 100, 101, 102, 65, 66, 67, 68, 69, 70];
  }

  /** `\u` without four bytes and at least one digit stands for nothing, and what follows it
      stands for itself. */
  lemma BrokenUnit(t: Text)
    requires |t| < 4 || !HexCharacter(t[0])
    ensures StringBody(Ascii("\\u") + t) == StringBody(t)
  {
    assert Ascii("\\u") == [BACKSLASH, LETTER_U];
    UnitFails(t);
    hide HexCharacter, Ascii, StringBody, ChunkLen, ChunkOut;
    BodyStep([BACKSLASH, LETTER_U] + t);
    assert [] + StringBody(t).value == StringBody(t).value;
  }

  lemma UnitFails(t: Text)
    requires |t| < 4 || !HexCharacter(t[0])
    ensures var s := [BACKSLASH, LETTER_U] + t; ChunkLen(s) == 2 && ChunkOut(s) == [] && s[2..] == t
  {
    var s := [BACKSLASH, LETTER_U] + t;
    if |t| >= 4 {
      HexCharacters(t[0]);
      hide HexCharacter, HexVal;
      assert s[2..6][0] == t[0];
    }
  }

  lemma BodyStep(s: Text)
    requires s != [] && s[0] != QUOTE
    ensures var tail := StringBody(s[ChunkLen(s)..]); StringBody(s) == Parsed(ChunkOut(s) + tail.value, tail.rest)
  {}

  /** The number of some digits, the first one weighing most. */
  function NibblesValue(ns: seq<Nibble>): nat {
    if ns == [] then 0 else NibblesValue(ns[..|ns| - 1]) * 16 + ns[|ns| - 1].value
  }

  function NibblesText(ns: seq<Nibble>): Text
    requires forall i | 0 <= i < |ns| :: ns[i].value < 16
  {
    if ns == [] then [] else NibblesText(ns[..|ns| - 1]) + DigitText(ns[|ns| - 1])
  }

  lemma {:induction false} NibblesBound(ns: seq<Nibble>)
    requires |ns| <= 3 && forall i | 0 <= i < |ns| :: ns[i].value < 16
    ensures NibblesValue(ns) < 0x1000 && |NibblesText(ns)| == |ns|
    ensures forall i | 0 <= i < |ns| :: HexVal(NibblesText(ns)[i]) == ns[i].value
    ensures NibblesValue(ns) < if |ns| == 0 then 1 else if |ns| == 1 then 16 else if |ns| == 2 then 256 else 4096
  {
    if ns != [] {
      NibblesBound(ns[..|ns| - 1]);
      DigitRead(ns[|ns| - 1]);
    }
  }

  /** Fewer than four digits count as the number they write; what comes in the place of the
      missing digits is consumed with them. */
  lemma ShortUnit(ns: seq<Nibble>, junk: Text, t: Text)
    requires 1 <= |ns| <= 3 && forall i | 0 <= i < |ns| :: ns[i].value < 16
    requires |ns| + |junk| == 4 && !HexCharacter(junk[0])
    ensures NibblesValue(ns) < 0x1000
    ensures StringBody(Ascii("\\u") + (NibblesText(ns) + junk + t))
         == Parsed(Utf8(NibblesValue(ns)) + StringBody(t).value, StringBody(t).rest)
  {
    NibblesBound(ns);
    HexCharacters(junk[0]);
    ShortRead(ns, junk);
    assert Ascii("\\u") == [BACKSLASH, LETTER_U];
    hide StringBody, NibblesText, NibblesValue, HexVal, HexCharacter, Ascii, ReadHex4;
    UnitChunk(NibblesText(ns) + junk, t);
    BodyStep([BACKSLASH, LETTER_U] + (NibblesText(ns) + junk + t));
  }

  lemma UnitChunk(digits: Text, t: Text)
    requires |digits| == 4 && ReadHex4(digits) >= 0
    ensures var s := [BACKSLASH, LETTER_U] + (digits + t);
            ReadHex4(digits) < 0x10000 && ChunkLen(s) == 6 && ChunkOut(s) == Utf8(ReadHex4(digits)) && s[6..] == t
  {
    hide ReadHex4;
    var s := [BACKSLASH, LETTER_U] + (digits + t);
    HexBound(digits);
    assert s[2..6] == digits && s[6..] == t;
  }

  lemma ShortRead(ns: seq<Nibble>, junk: Text)
    requires 1 <= |ns| <= 3 && forall i | 0 <= i < |ns| :: ns[i].value < 16
    requires |NibblesText(ns)| == |ns| && |ns| + |junk| == 4 && HexVal(junk[0]) < 0
    requires forall i | 0 <= i < |ns| :: HexVal(NibblesText(ns)[i]) == ns[i].value
    ensures ReadHex4(NibblesText(ns) + junk) == NibblesValue(ns)
  {
    hide HexVal, NibblesText;
    var d := NibblesText(ns) + junk;
    assert forall i | 0 <= i < |ns| :: HexVal(d[i]) == ns[i].value;
    assert HexVal(d[|ns|]) < 0;
    var one := [ns[0]];
    assert NibblesValue(one) == ns[0].value by { assert one[..0] == []; }
    if |ns| == 1 {
      assert ns == one;
    } else {
      var two := [ns[0], ns[1]];
      assert NibblesValue(two) == ns[0].value * 16 + ns[1].value by { assert two[..1] == one; }
      assert if |ns| == 2 then ns == two else ns[..2] == two;
    }
  }

  // ---- arrays and objects ----

  /** Where neither a comma nor the closing bracket follows an element, the array ends: at the
      end of the text, for instance, or where a comma is missing. */
  lemma UnclosedArray(items: Items, close: Text)
    requires items.Item? && ProperItems(items) && Ends(close)
    requires close == [] || close[0] !in Ascii(",]")
    ensures ParseValue(Ascii("[") + RenderItems(items, close)) == Parsed(Arr(ItemMeanings(items)), close)
  {
    assert Ascii(",]") == [COMMA, RBRACKET] && Ascii("[") == [LBRACKET];
    var body := RenderItems(items, close);
    hide ParseValue, ParseItems, RenderItems;
    ArrayStep(body);
    FirstItem(items, close);
    ParsesItems(items, close, SkipSpace(body), []);
    assert [] + ItemMeanings(items) == ItemMeanings(items);
    assert SkipSpace(close) == close;
  }

  /** A comma before the closing bracket adds a zero to the array. */
  lemma CommaBeforeBracket(items: Items, pad: Text, after: Text)
    requires items.Item? && ProperItems(items) && AllSpace(pad)
    ensures ParseValue(Ascii("[") + RenderItems(items, Ascii(",") + (pad + (Ascii("]") + after))))
         == Parsed(Arr(ItemMeanings(items) + [Num(0.0)]), after)
  {
    assert Ascii(",") == [COMMA] && Ascii("]") == [RBRACKET] && Ascii("[") == [LBRACKET];
    var bracket := [RBRACKET] + after;
    var close := [COMMA] + (pad + bracket);
    assert Ends(close) && close[1..] == pad + bracket;
    var body := RenderItems(items, close);
    Closing(RBRACKET, after);
    LastItem(pad, after, ItemMeanings(items));
    hide ParseValue, ParseItems, RenderItems;
    ArrayStep(body);
    FirstItem(items, close);
    ParsesItems(items, close, SkipSpace(body), []);
    assert [] + ItemMeanings(items) == ItemMeanings(items);
  }

  lemma LastItem(pad: Text, after: Text, arr: seq<Value>)
    requires AllSpace(pad)
    ensures ParseItems(pad + ([RBRACKET] + after), arr) == Parsed(arr + [Num(0.0)], [RBRACKET] + after)
  {
    var bracket := [RBRACKET] + after;
    SkipsSpace(pad, bracket);
    Closing(RBRACKET, after);
    ScansNothing(bracket);
    assert ParseValue(pad + bracket) == Parsed(Num(0.0), bracket);
  }

  lemma KeyFirst(fields: Fields, close: Text)
    requires fields.Field? && ProperFields(fields)
    ensures var t := SkipSpace(RenderFields(fields, close)); t != [] && t[0] == QUOTE && SkipSpace(t) == t
  {
    FrontKey(fields, close, RenderFields(fields, close));
  }

  /** Where neither a comma nor the closing brace follows a member, the object ends. */
  lemma UnclosedObject(fields: Fields, close: Text)
    requires fields.Field? && ProperFields(fields) && Ends(close)
    requires close == [] || close[0] !in Ascii(",}")
    ensures ParseValue(Ascii("{") + RenderFields(fields, close)) == Parsed(Obj(FieldMeanings(fields)), close)
  {
    assert Ascii(",}") == [COMMA, RBRACE] && Ascii("{") == [LBRACE];
    assert Skip(RBRACE, close) == close;
    hide ParseValue, ParseFields, RenderFields, FieldMeanings, Ascii, Skip, ProperFields, Ends;
    MembersThen(fields, close);
  }

  lemma MembersThen(fields: Fields, close: Text)
    requires fields.Field? && ProperFields(fields) && Ends(close)
    ensures ParseValue([LBRACE] + RenderFields(fields, close))
         == Parsed(Obj(FieldsGoOn(close, FieldMeanings(fields)).value),
                   Skip(RBRACE, FieldsGoOn(close, FieldMeanings(fields)).rest))
  {
    hide ParseValue, ParseFields, RenderFields, ProperFields, Ends, FieldsGoOn, FieldMeanings, Skip, SkipSpace;
    var body := RenderFields(fields, close);
    KeyFirst(fields, close);
    ObjectStep(body);
    ParsesFields(fields, close, SkipSpace(body), map[]);
    assert map[] + FieldMeanings(fields) == FieldMeanings(fields);
  }

  /** After a comma the object goes on with whatever comes. */
  lemma ObjectGoesOn(fields: Fields, rest: Text)
    requires fields.Field? && ProperFields(fields)
    ensures ParseValue([LBRACE] + RenderFields(fields, [COMMA] + rest))
         == Parsed(Obj(ParseFields(rest, FieldMeanings(fields)).value),
                   Skip(RBRACE, ParseFields(rest, FieldMeanings(fields)).rest))
  {
    hide ParseValue, ParseFields, RenderFields, FieldMeanings, Skip, SkipSpace, ProperFields;
    MembersThen(fields, [COMMA] + rest);
    assert ([COMMA] + rest)[1..] == rest;
  }

  lemma FieldsStop(s: Text, obj: map<Text, Value>)
    requires s != [] && (SkipSpace(ParseString(s).rest) == [] || SkipSpace(ParseString(s).rest)[0] != COLON)
    ensures ParseFields(s, obj) == Parsed(obj, SkipSpace(ParseString(s).rest))
  {}

  /** After a comma, anything but a key in quotes ends the object: a bare word, for instance. */
  lemma NoKey(fields: Fields, pad: Text, rest: Text)
    requires fields.Field? && ProperFields(fields) && AllSpace(pad)
    requires rest != [] && !IsSpace(rest[0]) && rest[0] !in Ascii("\":}")
    ensures ParseValue(Ascii("{") + RenderFields(fields, Ascii(",") + (pad + rest)))
         == Parsed(Obj(FieldMeanings(fields)), rest)
  {
    assert Ascii("\":}") == [QUOTE, COLON, RBRACE] && Ascii("{") == [LBRACE] && Ascii(",") == [COMMA];
    hide ParseValue, RenderFields, Ascii;
    KeyMissing(fields, pad, rest);
    NoSkip(rest);
  }

  lemma KeyMissing(fields: Fields, pad: Text, rest: Text)
    requires fields.Field? && ProperFields(fields) && AllSpace(pad)
    requires rest != [] && !IsSpace(rest[0]) && rest[0] != QUOTE && rest[0] != COLON
    ensures ParseValue([LBRACE] + RenderFields(fields, [COMMA] + (pad + rest)))
         == Parsed(Obj(FieldMeanings(fields)), Skip(RBRACE, rest))
  {
    hide ParseValue, ParseFields, RenderFields, Skip;
    SkipsSpace(pad, rest);
    NoSkip(rest);
    FieldsStop(pad + rest, FieldMeanings(fields));
    ObjectGoesOn(fields, pad + rest);
  }

  /** A comma before the closing brace adds nothing to the object. */
  lemma CommaBeforeBrace(fields: Fields, pad: Text, after: Text)
    requires fields.Field? && ProperFields(fields) && AllSpace(pad)
    ensures ParseValue(Ascii("{") + RenderFields(fields, Ascii(",") + (pad + (Ascii("}") + after))))
         == Parsed(Obj(FieldMeanings(fields)), after)
  {
    assert Ascii("}") == [RBRACE] && Ascii("{") == [LBRACE] && Ascii(",") == [COMMA];
    hide ParseValue, RenderFields, Ascii;
    KeyMissing(fields, pad, [RBRACE] + after);
    Closing(RBRACE, after);
  }

  /** A key without a colon ends the object, and does not count. */
  lemma NoColon(fields: Fields, key: Spelling, rest: Text)
    requires fields.Field? && ProperFields(fields)
    requires rest == [] || (!IsSpace(rest[0]) && rest[0] !in Ascii(":}"))
    ensures ParseValue(Ascii("{") + RenderFields(fields, Ascii(",") + ([QUOTE] + (Spelled(key) + [QUOTE] + rest))))
         == Parsed(Obj(FieldMeanings(fields)), rest)
  {
    assert Ascii(":}") == [COLON, RBRACE] && Ascii("{") == [LBRACE] && Ascii(",") == [COMMA];
    assert SkipSpace(rest) == rest && Skip(RBRACE, rest) == rest;
    hide ParseValue, ParseFields, RenderFields, ParseString, Ascii, Skip, SkipSpace;
    var member := [QUOTE] + (Spelled(key) + [QUOTE] + rest);
    StringText(key, rest);
    FieldsStop(member, FieldMeanings(fields));
    ObjectGoesOn(fields, member);
  }
}
