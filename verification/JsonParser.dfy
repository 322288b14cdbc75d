/** The value type, the recursive-descent parser as functions on the remaining input, and
    the parser object itself, whose methods move `pos` over a fixed input. */
module JsonParser {
  import opened Bytes
  import opened Common
  import opened JsonString
  import opened JsonNumber

  /** Doubles are exact numbers here; objects are unordered. */
  datatype Value =
    | Null
    | Bool(b: bool)
    | Num(d: real)
    | Str(s: Text)
    | Arr(items: seq<Value>)
    | Obj(fields: map<Text, Value>)
  {
    /** Null when this is not an object or the key is absent. */
    function Get(key: Text): (r: Option<Value>) {
      if Obj? && key in fields then Some(fields[key]) else None
    }
  }

  const TRUE: Text := [116, 114, 117, 101]
  const FALSE: Text := [102, 97, 108, 115, 101]
  const NULL: Text := [110, 117, 108, 108]

  // ---- the parser as functions on the remaining input ----

  function SkipSpace(s: Text): (t: Text)
    ensures |t| <= |s|
    ensures t == [] || !IsSpace(t[0])
  {
    if s != [] && IsSpace(s[0]) then SkipSpace(s[1..]) else s
  }

  /** The next significant byte; NUL at the end of the input. */
  function Look(s: Text): Byte {
    var t := SkipSpace(s);
    if t == [] then NUL else t[0]
  }

  /** Skips white space, and the byte `c` if it follows. */
  function Skip(c: Byte, s: Text): (t: Text)
    ensures |t| <= |s|
    ensures Look(s) == c && SkipSpace(s) != [] ==> |t| < |s|
  {
    var t := SkipSpace(s);
    if t != [] && t[0] == c then t[1..] else t
  }

  function ParseString(s: Text): (r: Parsed<Text>)
    ensures |r.rest| <= |s|
  {
    var t := SkipSpace(s);
    if t == [] || t[0] != QUOTE then Parsed([], t) else StringBody(t[1..])
  }

  function ParseBool(s: Text): (r: Parsed<Value>)
    ensures |r.rest| <= |s|
  {
    if TRUE <= s then Parsed(Bool(true), s[4..])
    else if FALSE <= s then Parsed(Bool(false), s[5..])
    else Parsed(Bool(false), s)
  }

  function ParseNull(s: Text): (r: Parsed<Value>)
    ensures |r.rest| <= |s|
  {
    if NULL <= s then Parsed(Null, s[4..]) else Parsed(Null, s)
  }

  function ParseNumber(s: Text): (r: Parsed<Value>)
    ensures |r.rest| <= |s|
  {
    var scan := ScanLiteral(SkipSpace(s));
    Parsed(Num(LiteralValue(scan.value)), scan.rest)
  }

  function ParseValue(s: Text): (r: Parsed<Value>)
    ensures |r.rest| <= |s|
    decreases |s|, 1
  {
    var t := SkipSpace(s);
    if t == [] then Parsed(Null, t)
    else if t[0] == QUOTE then
      var p := ParseString(t);
      Parsed(Str(p.value), p.rest)
    else if t[0] == LBRACE then ParseObject(t)
    else if t[0] == LBRACKET then ParseArray(t)
    else if t[0] == TRUE[0] || t[0] == FALSE[0] then ParseBool(t)
    else if t[0] == NULL[0] then ParseNull(t)
    else if t[0] == NUL then Parsed(Null, t)
    else ParseNumber(t)
  }

  function ParseObject(s: Text): (r: Parsed<Value>)
    ensures |r.rest| <= |s|
    decreases |s|, 0
  {
    var t := SkipSpace(s);
    if t == [] || t[0] != LBRACE then Parsed(Obj(map[]), t)
    else
      var u := SkipSpace(t[1..]);
      if u != [] && u[0] == RBRACE then Parsed(Obj(map[]), u[1..])
      else
        var p := ParseFields(u, map[]);
        Parsed(Obj(p.value), Skip(RBRACE, p.rest))
  }

  /** The member loop; later members replace earlier ones with the same key. */
  function ParseFields(s: Text, obj: map<Text, Value>): (r: Parsed<map<Text, Value>>)
    ensures |r.rest| <= |s|
    decreases |s|, 2
  {
    if s == [] then Parsed(obj, s)
    else
      var key := ParseString(s);
      var t := SkipSpace(key.rest);
      if t == [] || t[0] != COLON then Parsed(obj, t)
      else
        var v := ParseValue(t[1..]);
        var u := SkipSpace(v.rest);
        if u == [] || u[0] != COMMA then Parsed(obj[key.value := v.value], u)
        else ParseFields(u[1..], obj[key.value := v.value])
  }

  function ParseArray(s: Text): (r: Parsed<Value>)
    ensures |r.rest| <= |s|
    decreases |s|, 0
  {
    var t := SkipSpace(s);
    if t == [] || t[0] != LBRACKET then Parsed(Arr([]), t)
    else
      var u := SkipSpace(t[1..]);
      if u != [] && u[0] == RBRACKET then Parsed(Arr([]), u[1..])
      else
        var p := ParseItems(u, []);
        Parsed(Arr(p.value), Skip(RBRACKET, p.rest))
  }

  /** The element loop; an element that consumes nothing is kept, and ends the loop. */
  function ParseItems(s: Text, arr: seq<Value>): (r: Parsed<seq<Value>>)
    ensures |r.rest| <= |s|
    decreases |s|, 2
  {
    if s == [] then Parsed(arr, s)
    else
      var v := ParseValue(s);
      if |v.rest| == |s| then Parsed(arr + [v.value], v.rest)
      else
        var u := SkipSpace(v.rest);
        if u == [] || u[0] != COMMA then Parsed(arr + [v.value], u)
        else ParseItems(u[1..], arr + [v.value])
  }

  // ---- the parser object ----

  lemma PrefixAt(word: Text, input: Text, pos: nat)
    requires pos <= |input|
    ensures word <= input[pos..] <==> pos + |word| <= |input| && input[pos..pos + |word|] == word
  {
    if pos + |word| <= |input| {
      assert input[pos..][..|word|] == input[pos..pos + |word|];
    }
  }

  lemma StringBodyUnroll(input: Text, i: nat, j: nat)
    requires i < |input| && input[i] != QUOTE && j == i + ChunkLen(input[i..])
    ensures j <= |input|
    ensures StringBody(input[i..])
         == Parsed(ChunkOut(input[i..]) + StringBody(input[j..]).value, StringBody(input[j..]).rest)
  {
    assert input[i..][ChunkLen(input[i..])..] == input[j..];
  }

  lemma PlainChunk(s: Text)
    requires s != [] && (s[0] != BACKSLASH || |s| == 1)
    ensures ChunkOut(s) == [s[0]] && ChunkLen(s) == 1
  {}

  lemma DigitRunUnroll(input: Text, i: nat)
    requires i < |input|
    ensures DigitRun(input[i..]) == if IsDigit(input[i]) then 1 + DigitRun(input[i + 1..]) else 0
  {
    assert input[i..][1..] == input[i + 1..];
  }

  lemma StringBodyEnd(input: Text, i: nat)
    requires i < |input| && input[i] == QUOTE
    ensures StringBody(input[i..]) == Parsed([], input[i + 1..])
  {
    assert input[i..][1..] == input[i + 1..];
  }

  class Parser {
    const input: Text
    var pos: nat

    constructor (input: Text)
      ensures this.input == input && pos == 0
    {
      this.input := input;
      pos := 0;
    }

    ghost predicate Valid()
      reads this
    {
      pos <= |input|
    }

    /** The input not consumed yet. */
    ghost function Rest(): Text
      reads this
      requires Valid()
    {
      input[pos..]
    }

    method SkipWs()
      requires Valid()
      modifies this`pos
      ensures Valid() && old(pos) <= pos
      ensures Rest() == SkipSpace(old(Rest()))
    {
      while pos < |input| && (input[pos] == SPACE || input[pos] == TAB || input[pos] == LF || input[pos] == CR)
        invariant old(pos) <= pos <= |input|
        invariant SkipSpace(input[pos..]) == SkipSpace(old(Rest()))
      {
        assert input[pos..][1..] == input[pos + 1..];
        pos := pos + 1;
      }
    }

    method Peek() returns (c: Byte)
      requires Valid()
      modifies this`pos
      ensures Valid() && old(pos) <= pos
      ensures Rest() == SkipSpace(old(Rest()))
      ensures c == if Rest() == [] then NUL else Rest()[0]
    {
      SkipWs();
      c := if pos < |input| then input[pos] else NUL;
    }

    method Advance() returns (c: Byte)
      requires Valid()
      modifies this`pos
      ensures Valid() && old(pos) <= pos
      ensures old(Rest()) == [] ==> c == NUL && pos == old(pos)
      ensures old(Rest()) != [] ==> [c] + Rest() == old(Rest())
    {
      c := NUL;
      if pos < |input| {
        c := input[pos];
        pos := pos + 1;
      }
    }

    method Expect(c: Byte) returns (found: bool)
      requires Valid()
      modifies this`pos
      ensures Valid() && old(pos) <= pos
      ensures var t := SkipSpace(old(Rest()));
              found == (t != [] && t[0] == c) && Rest() == if found then t[1..] else t
    {
      SkipWs();
      found := false;
      if pos < |input| && input[pos] == c {
        assert input[pos..][1..] == input[pos + 1..];
        pos := pos + 1;
        found := true;
      }
    }

    /** The escape whose backslash has just been consumed. */
    method ReadEscape() returns (piece: Text)
      requires 0 < pos < |input| && input[pos - 1] == BACKSLASH
      modifies this`pos
      ensures Valid() && old(pos) < pos
      ensures piece == ChunkOut(input[old(pos) - 1..])
      ensures pos == old(pos) - 1 + ChunkLen(input[old(pos) - 1..])
    {
      hide ReadHex4, Utf8;
      ghost var s := input[pos - 1..];
      var next := input[pos];
      pos := pos + 1;
      if next == LETTER_U {
        piece := [];
        if pos + 4 <= |input| {
          assert input[pos..pos + 4] == s[2..6];
          HexBound(input[pos..pos + 4]);
          var codepoint := ReadHex4(input[pos..pos + 4]);
          if codepoint >= 0 {
            piece := Utf8(codepoint);
            pos := pos + 4;
          }
        }
      } else {
        piece := [ShortEscape(next)];
      }
    }

    /** The string loop, from just after the opening quote. */
    method ReadBody() returns (result: Text)
      requires Valid()
      modifies this`pos
      ensures Valid() && old(pos) <= pos
      ensures Parsed(result, Rest()) == StringBody(old(Rest()))
    {
      hide ChunkOut, ChunkLen;
      result := [];
      ghost var body := StringBody(Rest());
      ghost var tail := body;
      while pos < |input|
        invariant old(pos) <= pos <= |input|
        invariant tail == StringBody(input[pos..])
        invariant body.value == result + tail.value && body.rest == tail.rest
      {
        ghost var start := pos;
        var c := input[pos];
        pos := pos + 1;
        if c == QUOTE {
          StringBodyEnd(input, start);
          assert result + [] == result;
          return;
        }
        var piece := [c];
        if c == BACKSLASH && pos < |input| {
          piece := ReadEscape();
        } else {
          PlainChunk(input[start..]);
        }
        assert piece == ChunkOut(input[start..]) && pos == start + ChunkLen(input[start..]);
        StringBodyUnroll(input, start, pos);
        tail := StringBody(input[pos..]);
        Assoc(result, piece, tail.value);
        result := result + piece;
      }
      assert result + [] == result;
    }

    method ParseStringToken() returns (result: Text)
      requires Valid()
      modifies this`pos
      ensures Valid() && old(pos) <= pos
      ensures Parsed(result, Rest()) == ParseString(old(Rest()))
    {
      var found := Expect(QUOTE);
      if !found { return []; }
      result := ReadBody();
    }

    method ParseBoolToken() returns (v: Value)
      requires Valid()
      modifies this`pos
      ensures Valid() && old(pos) <= pos
      ensures Parsed(v, Rest()) == ParseBool(old(Rest()))
    {
      PrefixAt(TRUE, input, pos);
      PrefixAt(FALSE, input, pos);
      if pos + 4 <= |input| && input[pos..pos + 4] == TRUE {
        pos := pos + 4;
        return Bool(true);
      }
      if pos + 5 <= |input| && input[pos..pos + 5] == FALSE {
        pos := pos + 5;
        return Bool(false);
      }
      return Bool(false);
    }

    method ParseNullToken() returns (v: Value)
      requires Valid()
      modifies this`pos
      ensures Valid() && old(pos) <= pos
      ensures Parsed(v, Rest()) == ParseNull(old(Rest()))
    {
      PrefixAt(NULL, input, pos);
      if pos + 4 <= |input| && input[pos..pos + 4] == NULL {
        pos := pos + 4;
      }
      return Null;
    }

    /** The digit loops of the number scan. */
    method SkipDigits() returns (digits: Text)
      requires Valid()
      modifies this`pos
      ensures Valid() && old(pos) <= pos
      ensures Parsed(digits, Rest()) == ScanDigits(old(Rest()))
    {
      hide DigitRun;
      var start := pos;
      while pos < |input| && IsDigit(input[pos])
        invariant start == old(pos) <= pos <= |input|
        invariant DigitRun(old(Rest())) == pos - old(pos) + DigitRun(input[pos..])
      {
        DigitRunUnroll(input, pos);
        pos := pos + 1;
      }
      if pos < |input| { DigitRunUnroll(input, pos); }
      digits := input[start..pos];
      assert digits == old(Rest())[..pos - old(pos)];
    }

    method ParseMinus() returns (negative: bool)
      requires Valid()
      modifies this`pos
      ensures Valid() && old(pos) <= pos
      ensures Parsed(negative, Rest()) == ScanMinus(old(Rest()))
    {
      negative := false;
      if pos < |input| && input[pos] == MINUS {
        assert input[pos..][1..] == input[pos + 1..];
        negative := true;
        pos := pos + 1;
      }
    }

    method ParseFrac() returns (frac: Text)
      requires Valid()
      modifies this`pos
      ensures Valid() && old(pos) <= pos
      ensures Parsed(frac, Rest()) == ScanFrac(old(Rest()))
    {
      frac := [];
      if pos < |input| && input[pos] == DOT {
        assert input[pos..][1..] == input[pos + 1..];
        pos := pos + 1;
        frac := SkipDigits();
      }
    }

    method ParseExponent() returns (e: Exponent)
      requires Valid()
      modifies this`pos
      ensures Valid() && old(pos) <= pos
      ensures Parsed(e, Rest()) == ScanExponent(old(Rest()))
    {
      e := NoExponent;
      if pos < |input| && (input[pos] == 101 || input[pos] == 69) {
        var mark := input[pos];
        assert input[pos..][1..] == input[pos + 1..];
        pos := pos + 1;
        var sign := [];
        if pos < |input| && (input[pos] == PLUS || input[pos] == MINUS) {
          sign := [input[pos]];
          assert input[pos..][1..] == input[pos + 1..];
          pos := pos + 1;
        }
        var digits := SkipDigits();
        e := Exponent(mark, sign, digits);
      }
    }

    method ParseNumberToken() returns (v: Value)
      requires Valid()
      modifies this`pos
      ensures Valid() && old(pos) <= pos
      ensures Parsed(v, Rest()) == ParseNumber(old(Rest()))
    {
      SkipWs();
      var negative := ParseMinus();
      var whole := SkipDigits();
      var frac := ParseFrac();
      var exponent := ParseExponent();
      v := Num(LiteralValue(Literal(negative, whole, frac, exponent)));
    }

    method ParseValueAt() returns (v: Value)
      requires Valid()
      modifies this`pos
      ensures Valid() && old(pos) <= pos
      ensures Parsed(v, Rest()) == ParseValue(old(Rest()))
      decreases |input| - pos, 1
    {
      var c := Peek();
      if c == QUOTE {
        var s := ParseStringToken();
        return Str(s);
      }
      if c == LBRACE { v := ParseObjectAt(); return; }
      if c == LBRACKET { v := ParseArrayAt(); return; }
      if c == TRUE[0] || c == FALSE[0] { v := ParseBoolToken(); return; }
      if c == NULL[0] { v := ParseNullToken(); return; }
      if c == NUL { return Null; }
      v := ParseNumberToken();
    }

    method ParseObjectAt() returns (v: Value)
      requires Valid()
      modifies this`pos
      ensures Valid() && old(pos) <= pos
      ensures Parsed(v, Rest()) == ParseObject(old(Rest()))
      decreases |input| - pos, 0
    {
      var obj: map<Text, Value> := map[];
      var found := Expect(LBRACE);
      if !found { return Obj(obj); }
      var c := Peek();
      if c == RBRACE {
        var _ := Advance();
        return Obj(obj);
      }
      ghost var goal := ParseFields(Rest(), obj);
      while pos < |input|
        invariant old(pos) < pos <= |input|
        invariant goal == ParseFields(Rest(), obj)
        decreases |input| - pos
      {
        var key := ParseStringToken();
        if key == [] {
          c := Peek();
          if c != COLON { break; }
        }
        found := Expect(COLON);
        if !found { break; }
        var item := ParseValueAt();
        obj := obj[key := item];
        c := Peek();
        if c != COMMA { break; }
        var _ := Advance();
      }
      assert goal == Parsed(obj, Rest());
      var _ := Expect(RBRACE);
      v := Obj(obj);
    }

    method ParseArrayAt() returns (v: Value)
      requires Valid()
      modifies this`pos
      ensures Valid() && old(pos) <= pos
      ensures Parsed(v, Rest()) == ParseArray(old(Rest()))
      decreases |input| - pos, 0
    {
      var arr: seq<Value> := [];
      var found := Expect(LBRACKET);
      if !found { return Arr(arr); }
      var c := Peek();
      if c == RBRACKET {
        var _ := Advance();
        return Arr(arr);
      }
      ghost var goal := ParseItems(Rest(), arr);
      while pos < |input|
        invariant old(pos) < pos <= |input|
        invariant goal == ParseItems(Rest(), arr)
        decreases |input| - pos
      {
        var prev := pos;
        var item := ParseValueAt();
        arr := arr + [item];
        if pos == prev { break; }
        c := Peek();
        if c != COMMA { break; }
        var _ := Advance();
      }
      assert goal == Parsed(arr, Rest());
      var _ := Expect(RBRACKET);
      v := Arr(arr);
    }
  }

  /** Parses the first value of the text and ignores what follows it. */
  method Parse(input: Text) returns (v: Value)
    ensures v == ParseValue(input).value
  {
    var p := new Parser(input);
    assert p.Rest() == input;
    v := p.ParseValueAt();
  }
}
