/** Concrete JSON texts, white space and spelling included, and the theorem that the parser
    reads every one of them as the value it denotes. */
module JsonSyntax {
  import opened Bytes
  import opened JsonString
  import opened JsonNumber
  import opened JsonParser
  import opened JsonSpelling

  /** A JSON text (RFC 8259 section 2). `pad` is the space inside an empty array or object;
      strings and keys are kept as they are spelled between the quotes. */
  datatype Syntax =
    | SNull
    | SBool(b: bool)
    | SNum(literal: Number)
    | SStr(spelling: Spelling)
    | SArr(pad: Text, items: Items)
    | SObj(pad: Text, fields: Fields)

  datatype Items = NoItems | Item(pre: Text, item: Syntax, post: Text, tail: Items)

  datatype Fields =
    | NoFields
    | Field(pre: Text, key: Spelling, mid: Text, gap: Text, item: Syntax, post: Text, tail: Fields)

  predicate AllSpace(w: Text) {
    forall i | 0 <= i < |w| :: w[i] in [9, 10, 13, 32]
  }

  predicate Proper(c: Syntax) {
    match c
    case SArr(pad, items) => AllSpace(pad) && ProperItems(items)
    case SObj(pad, fields) => AllSpace(pad) && ProperFields(fields)
    case _ => true
  }

  predicate ProperItems(items: Items) {
    items.Item? ==>
      AllSpace(items.pre) && Proper(items.item) && AllSpace(items.post) && ProperItems(items.tail)
  }

  predicate ProperFields(fields: Fields) {
    fields.Field? ==>
      && AllSpace(fields.pre) && AllSpace(fields.mid) && AllSpace(fields.gap)
      && Proper(fields.item) && AllSpace(fields.post) && ProperFields(fields.tail)
  }

  // ---- text ----

  /** The text of `c`, followed by `after`. */
  function Render(c: Syntax, after: Text): Text
    decreases c
  {
    match c
    case SNull => Ascii("null") + after
    case SBool(b) => Ascii(if b then "true" else "false") + after
    case SNum(literal) => LiteralText(literal, after)
    case SStr(spelling) => [QUOTE] + (Spelled(spelling) + [QUOTE] + after)
    case SArr(pad, items) =>
      [LBRACKET] + (if items.NoItems? then pad + ([RBRACKET] + after)
                    else RenderItems(items, [RBRACKET] + after))
    case SObj(pad, fields) =>
      [LBRACE] + (if fields.NoFields? then pad + ([RBRACE] + after)
                  else RenderFields(fields, [RBRACE] + after))
  }

  function RenderItems(items: Items, after: Text): Text
    decreases items
  {
    match items
    case NoItems => after
    case Item(pre, item, post, tail) =>
      pre + Render(item, post + (if tail.NoItems? then after else [COMMA] + RenderItems(tail, after)))
  }

  function RenderFields(fields: Fields, after: Text): Text
    decreases fields
  {
    match fields
    case NoFields => after
    case Field(pre, key, mid, gap, item, post, tail) =>
      pre + ([QUOTE] + (Spelled(key) + [QUOTE] + (mid + ([COLON] + (gap +
        Render(item, post + (if tail.NoFields? then after else [COMMA] + RenderFields(tail, after))))))))
  }

  // ---- meaning ----

  function Meaning(c: Syntax): Value
    decreases c
  {
    match c
    case SNull => Null
    case SBool(b) => Bool(b)
    case SNum(literal) => Num(LiteralValue(literal))
    case SStr(spelling) => Str(Denoted(spelling))
    case SArr(_, items) => Arr(ItemMeanings(items))
    case SObj(_, fields) => Obj(FieldMeanings(fields))
  }

  function ItemMeanings(items: Items): seq<Value>
    decreases items
  {
    if items.NoItems? then [] else [Meaning(items.item)] + ItemMeanings(items.tail)
  }

  /** Of several members with one key the last one counts. */
  function FieldMeanings(fields: Fields): map<Text, Value>
    decreases fields
  {
    if fields.NoFields? then map[]
    else map[Denoted(fields.key) := Meaning(fields.item)] + FieldMeanings(fields.tail)
  }

  // ---- the parser reads every text ----

  lemma {:induction false} SkipsSpace(w: Text, t: Text)
    requires AllSpace(w)
    ensures SkipSpace(w + t) == SkipSpace(t)
  {
    if w == [] {
      assert w + t == t;
    } else {
      assert (w + t)[1..] == w[1..] + t;
      SkipsSpace(w[1..], t);
    }
  }

  lemma NoSkip(t: Text)
    requires t != [] && !IsSpace(t[0])
    ensures SkipSpace(t) == t
  {}

  lemma LeadingSpace(w: Text, t: Text)
    requires AllSpace(w)
    ensures ParseValue(w + t).value == ParseValue(t).value
    ensures ParseValue(w + t).rest == ParseValue(t).rest
  {
    SkipsSpace(w, t);
  }

  /** The first byte of a text is enough to choose the branch of the parser. */
  predicate Starts(c: Syntax, b: Byte) {
    match c
    case SNull => b == NULL[0]
    case SBool(_) => b == TRUE[0] || b == FALSE[0]
    case SNum(_) => b == MINUS || IsDigit(b)
    case SStr(_) => b == QUOTE
    case SArr(_, _) => b == LBRACKET
    case SObj(_, _) => b == LBRACE
  }

  lemma Words()
    ensures Ascii("null") == NULL && Ascii("true") == TRUE && Ascii("false") == FALSE
  {}

  /** The punctuation of the grammar, in the order in which it is usually met. */
  lemma Punctuation()
    ensures [LBRACE, QUOTE, COLON, LBRACKET, COMMA, RBRACKET, RBRACE] == Ascii("{\":[,]}")
  {}

  lemma FirstByte(c: Syntax, after: Text)
    requires Proper(c)
    ensures Render(c, after) != [] && Starts(c, Render(c, after)[0])
  {
    Words();
    if c.SNum? {
      assert IsDigit(c.literal.whole[0]);
    }
  }

  /** Text that may follow a value inside or after a JSON text. */
  predicate Follows(c: Syntax, after: Text) {
    c.SNum? ==> Stops(after)
  }

  /** Text in which the elements before it end: it begins neither with space nor with anything
      that continues a number. */
  predicate Ends(close: Text) {
    Stops(close) && (close == [] || !IsSpace(close[0]))
  }

  lemma StopsAfterSpace(post: Text, t: Text)
    requires AllSpace(post) && Ends(t)
    ensures Stops(post + t) && SkipSpace(post + t) == t
  {
    SkipsSpace(post, t);
    if post != [] {
      assert (post + t)[0] == post[0];
    } else {
      assert post + t == t;
    }
  }

  lemma StringText(spelling: Spelling, after: Text)
    ensures ParseString([QUOTE] + (Spelled(spelling) + [QUOTE] + after)) == Parsed(Denoted(spelling), after)
  {
    var body := Spelled(spelling);
    SpellingRead(spelling);
    var s := [QUOTE] + (body + [QUOTE] + after);
    assert s[1..] == body + [QUOTE] + after;
    BodyFraming(body, after);
  }

  lemma AtomText(c: Syntax, after: Text)
    requires Proper(c) && Follows(c, after) && (c.SNull? || c.SBool? || c.SNum? || c.SStr?)
    ensures ParseValue(Render(c, after)) == Parsed(Meaning(c), after)
  {
    var s := Render(c, after);
    Words();
    FirstByte(c, after);
    assert SkipSpace(s) == s;
    match c
    case SNull => assert NULL <= s && s[4..] == after;
    case SBool(b) =>
      assert if b then TRUE <= s && s[4..] == after else FALSE <= s && s[5..] == after && !(TRUE <= s);
    case SNum(literal) => LiteralScan(literal, after);
    case SStr(spelling) => StringText(spelling, after);
  }

  // One step of each parser loop, on abstract text.

  lemma ValueTrim(s: Text, t: Text)
    requires SkipSpace(s) == SkipSpace(t)
    ensures ParseValue(s) == ParseValue(t)
  {}

  lemma ArrayStep(body: Text)
    ensures var u := SkipSpace(body);
            ParseValue([LBRACKET] + body) ==
              if u != [] && u[0] == RBRACKET then Parsed(Arr([]), u[1..])
              else Parsed(Arr(ParseItems(u, []).value), Skip(RBRACKET, ParseItems(u, []).rest))
  {
    assert ([LBRACKET] + body)[1..] == body;
  }

  lemma ObjectStep(body: Text)
    ensures var u := SkipSpace(body);
            ParseValue([LBRACE] + body) ==
              if u != [] && u[0] == RBRACE then Parsed(Obj(map[]), u[1..])
              else Parsed(Obj(ParseFields(u, map[]).value), Skip(RBRACE, ParseFields(u, map[]).rest))
  {
    assert ([LBRACE] + body)[1..] == body;
  }

  lemma ItemsStep(s: Text, arr: seq<Value>, v: Value, k: Text)
    requires s != [] && ParseValue(s) == Parsed(v, k) && |k| < |s|
    ensures var u := SkipSpace(k);
            ParseItems(s, arr) ==
              if u == [] || u[0] != COMMA then Parsed(arr + [v], u) else ParseItems(u[1..], arr + [v])
  {}

  lemma FieldsStep(s: Text, obj: map<Text, Value>, key: Text, m: Text, w: Text, v: Value, k: Text)
    requires s != [] && ParseString(s) == Parsed(key, m)
    requires SkipSpace(m) == [COLON] + w && ParseValue(w) == Parsed(v, k)
    ensures var u := SkipSpace(k);
            ParseFields(s, obj) ==
              if u == [] || u[0] != COMMA then Parsed(obj[key := v], u) else ParseFields(u[1..], obj[key := v])
  {
    assert ([COLON] + w)[1..] == w;
  }

  lemma Closing(b: Byte, after: Text)
    requires b == RBRACKET || b == RBRACE
    ensures SkipSpace([b] + after) == [b] + after
    ensures Skip(b, [b] + after) == after
    ensures ([b] + after)[1..] == after
  {}

  /** The parser reads any JSON text, however it is spaced and spelled, as the value it
      denotes, and stops exactly at its end. */
  lemma {:induction false} ParsesSyntax(c: Syntax, after: Text)
    requires Proper(c) && Follows(c, after)
    ensures ParseValue(Render(c, after)) == Parsed(Meaning(c), after)
    decreases c, 1
  {
    match c
    case SArr(pad, items) => ParsesArray(c, after);
    case SObj(pad, fields) => ParsesObject(c, after);
    case _ => AtomText(c, after);
  }

  lemma {:induction false} ParsesArray(c: Syntax, after: Text)
    requires c.SArr? && Proper(c)
    ensures ParseValue(Render(c, after)) == Parsed(Meaning(c), after)
    decreases c, 0
  {
    hide ParseValue, ParseItems;
    var close := [RBRACKET] + after;
    var body := if c.items.NoItems? then c.pad + close else RenderItems(c.items, close);
    ArrayStep(body);
    Closing(RBRACKET, after);
    if c.items.NoItems? {
      SkipsSpace(c.pad, close);
    } else {
      FirstItem(c.items, close);
      ParsesItems(c.items, close, SkipSpace(body), []);
      assert [] + ItemMeanings(c.items) == ItemMeanings(c.items);
    }
  }

  lemma FirstItem(items: Items, close: Text)
    requires items.Item? && ProperItems(items)
    ensures var t := SkipSpace(RenderItems(items, close));
            t != [] && Starts(items.item, t[0]) && SkipSpace(t) == t
  {
    var k := items.post + (if items.tail.NoItems? then close else [COMMA] + RenderItems(items.tail, close));
    FirstByte(items.item, k);
    SkipsSpace(items.pre, Render(items.item, k));
  }

  /** What follows an element: the closing bracket, or a comma and the other elements. */
  function AfterItem(tail: Items, close: Text): Text {
    if tail.NoItems? then close else [COMMA] + RenderItems(tail, close)
  }

  lemma ItemsText(items: Items, close: Text)
    requires items.Item?
    ensures RenderItems(items, close)
         == items.pre + Render(items.item, items.post + AfterItem(items.tail, close))
  {}

  /** The element at the front of the text of `items`. */
  lemma FrontItem(items: Items, close: Text, s: Text)
    requires items.Item? && ProperItems(items) && Ends(close)
    requires SkipSpace(s) == SkipSpace(RenderItems(items, close))
    requires var k := items.post + AfterItem(items.tail, close);
             Stops(k) ==> ParseValue(Render(items.item, k)) == Parsed(Meaning(items.item), k)
    ensures var k := items.post + AfterItem(items.tail, close);
            s != [] && ParseValue(s) == Parsed(Meaning(items.item), k) && |k| < |s|
    ensures var k := items.post + AfterItem(items.tail, close);
            SkipSpace(k) == AfterItem(items.tail, close)
  {
    hide ParseValue, Render, RenderItems, SkipSpace, AllSpace, Meaning, Proper, Stops, AfterItem;
    var k := items.post + AfterItem(items.tail, close);
    AfterFrontItem(items, close);
    ItemsText(items, close);
    SkipsSpace(items.pre, Render(items.item, k));
    ValueTrim(s, Render(items.item, k));
    FirstByte(items.item, k);
    NoSkip(Render(items.item, k));
    RenderGrows(items.item, k);
  }

  /** What follows an item ends a number, and begins, but for space, with a comma or the end. */
  lemma AfterFrontItem(items: Items, close: Text)
    requires items.Item? && ProperItems(items) && Ends(close)
    ensures var k := items.post + AfterItem(items.tail, close);
            Stops(k) && SkipSpace(k) == AfterItem(items.tail, close)
  {
    hide Render, RenderItems, SkipSpace, AllSpace, Proper;
    assert Ends(AfterItem(items.tail, close));
    StopsAfterSpace(items.post, AfterItem(items.tail, close));
  }

  /** The loop goes on after a comma, whatever comes then; otherwise it ends. */
  function ItemsGoOn(close: Text, arr: seq<Value>): Parsed<seq<Value>> {
    if close == [] || close[0] != COMMA then Parsed(arr, close) else ParseItems(close[1..], arr)
  }

  /** The element loop over the text of `items`; `s` is that text up to leading space. */
  lemma {:induction false} ParsesItems(items: Items, close: Text, s: Text, arr: seq<Value>)
    requires items.Item? && ProperItems(items) && Ends(close)
    requires SkipSpace(s) == SkipSpace(RenderItems(items, close))
    ensures ParseItems(s, arr) == ItemsGoOn(close, arr + ItemMeanings(items))
    decreases items, 2
  {
    hide ParseValue, ParseItems, SkipSpace, Ends;
    var k := items.post + AfterItem(items.tail, close);
    if Stops(k) {
      ParsesSyntax(items.item, k);
    }
    FrontItem(items, close, s);
    ItemsStep(s, arr, Meaning(items.item), k);
    var arr' := arr + [Meaning(items.item)];
    assert arr + ItemMeanings(items) == arr' + ItemMeanings(items.tail);
    if items.tail.NoItems? {
      assert arr' + [] == arr';
    } else {
      assert AfterItem(items.tail, close)[1..] == RenderItems(items.tail, close);
      ParsesItems(items.tail, close, RenderItems(items.tail, close), arr');
    }
  }

  lemma RenderGrows(c: Syntax, after: Text)
    requires Proper(c)
    ensures |after| < |Render(c, after)|
  {
    RenderAppends(c, [], after);
    FirstByte(c, []);
    assert [] + after == after;
  }

  lemma {:induction false} RenderAppends(c: Syntax, a: Text, b: Text)
    ensures Render(c, a + b) == Render(c, a) + b
    decreases c, 1
  {
    hide LiteralText;
    match c
    case SNull => Assoc(Ascii("null"), a, b);
    case SBool(v) => Assoc(Ascii(if v then "true" else "false"), a, b);
    case SNum(literal) => LiteralTextAppend(literal, a, b);
    case SStr(spelling) =>
      var body := Spelled(spelling);
      Assoc(body + [QUOTE], a, b);
      Assoc([QUOTE], body + [QUOTE] + a, b);
    case SArr(pad, items) =>
      var close := [RBRACKET] + a;
      Assoc([RBRACKET], a, b);
      ItemsAppend(items, close, b);
      Assoc(pad, close, b);
      Assoc([LBRACKET], if items.NoItems? then pad + close else RenderItems(items, close), b);
    case SObj(pad, fields) =>
      var close := [RBRACE] + a;
      Assoc([RBRACE], a, b);
      FieldsAppend(fields, close, b);
      Assoc(pad, close, b);
      Assoc([LBRACE], if fields.NoFields? then pad + close else RenderFields(fields, close), b);
  }

  lemma {:induction false} ItemsAppend(items: Items, a: Text, b: Text)
    ensures RenderItems(items, a + b) == RenderItems(items, a) + b
    decreases items, 0
  {
    if items.Item? {
      ItemsAppend(items.tail, a, b);
      var next := if items.tail.NoItems? then a else [COMMA] + RenderItems(items.tail, a);
      var next' := if items.tail.NoItems? then a + b else [COMMA] + RenderItems(items.tail, a + b);
      Assoc([COMMA], RenderItems(items.tail, a), b);
      assert next' == next + b;
      Assoc(items.post, next, b);
      RenderAppends(items.item, items.post + next, b);
      Assoc(items.pre, Render(items.item, items.post + next), b);
    }
  }

  lemma {:induction false} FieldsAppend(fields: Fields, a: Text, b: Text)
    ensures RenderFields(fields, a + b) == RenderFields(fields, a) + b
    decreases fields, 0
  {
    if fields.Field? {
      FieldsAppend(fields.tail, a, b);
      var next := if fields.tail.NoFields? then a else [COMMA] + RenderFields(fields.tail, a);
      var next' := if fields.tail.NoFields? then a + b else [COMMA] + RenderFields(fields.tail, a + b);
      Assoc([COMMA], RenderFields(fields.tail, a), b);
      assert next' == next + b;
      Assoc(fields.post, next, b);
      RenderAppends(fields.item, fields.post + next, b);
      var value := Render(fields.item, fields.post + next);
      Assoc(fields.gap, value, b);
      Assoc([COLON], fields.gap + value, b);
      var colon := [COLON] + (fields.gap + value);
      Assoc(fields.mid, colon, b);
      Assoc(Spelled(fields.key) + [QUOTE], fields.mid + colon, b);
      Assoc([QUOTE], Spelled(fields.key) + [QUOTE] + (fields.mid + colon), b);
      Assoc(fields.pre, [QUOTE] + (Spelled(fields.key) + [QUOTE] + (fields.mid + colon)), b);
    }
  }

  lemma ParsesEmptyObject(c: Syntax, after: Text)
    requires c.SObj? && c.fields.NoFields? && Proper(c)
    ensures ParseValue(Render(c, after)) == Parsed(Meaning(c), after)
  {
    hide ParseValue, ParseFields;
    var close := [RBRACE] + after;
    ObjectStep(c.pad + close);
    Closing(RBRACE, after);
    SkipsSpace(c.pad, close);
  }

  lemma {:induction false} ParsesObject(c: Syntax, after: Text)
    requires c.SObj? && Proper(c)
    ensures ParseValue(Render(c, after)) == Parsed(Meaning(c), after)
    decreases c, 0
  {
    if c.fields.NoFields? {
      ParsesEmptyObject(c, after);
    } else {
      hide ParseValue, ParseFields, Closed, SkipSpace;
      var body := RenderFields(c.fields, [RBRACE] + after);
      ObjectStep(body);
      Closing(RBRACE, after);
      FrontKey(c.fields, [RBRACE] + after, body);
      ParsesFields(c.fields, [RBRACE] + after, SkipSpace(body), map[]);
      assert map[] + FieldMeanings(c.fields) == FieldMeanings(c.fields);
    }
  }

  /** What follows a member: the closing brace, or a comma and the other members. */
  function AfterField(tail: Fields, close: Text): Text {
    if tail.NoFields? then close else [COMMA] + RenderFields(tail, close)
  }

  /** What follows the colon of the first member. */
  function AfterColon(fields: Fields, close: Text): Text
    requires fields.Field?
  {
    fields.gap + Render(fields.item, fields.post + AfterField(fields.tail, close))
  }

  /** The key at the front of the text of `fields`. */
  lemma FrontKey(fields: Fields, close: Text, s: Text)
    requires fields.Field? && ProperFields(fields)
    requires SkipSpace(s) == SkipSpace(RenderFields(fields, close))
    ensures var m := fields.mid + ([COLON] + AfterColon(fields, close));
            s != [] && ParseString(s) == Parsed(Denoted(fields.key), m)
            && SkipSpace(m) == [COLON] + AfterColon(fields, close)
    ensures var t := SkipSpace(s); t != [] && t[0] == QUOTE && SkipSpace(t) == t
  {
    var v := AfterColon(fields, close);
    var m := fields.mid + ([COLON] + v);
    var q := [QUOTE] + (Spelled(fields.key) + [QUOTE] + m);
    assert RenderFields(fields, close) == fields.pre + q;
    SkipsSpace(fields.pre, q);
    StringText(fields.key, m);
    SkipsSpace(fields.mid, [COLON] + v);
  }

  function FieldsGoOn(close: Text, obj: map<Text, Value>): Parsed<map<Text, Value>> {
    if close == [] || close[0] != COMMA then Parsed(obj, close) else ParseFields(close[1..], obj)
  }

  /** The member loop over the text of `fields`; `s` is that text up to leading space. */
  lemma {:induction false} ParsesFields(fields: Fields, close: Text, s: Text, obj: map<Text, Value>)
    requires fields.Field? && ProperFields(fields) && Ends(close)
    requires SkipSpace(s) == SkipSpace(RenderFields(fields, close))
    ensures ParseFields(s, obj) == FieldsGoOn(close, obj + FieldMeanings(fields))
    decreases fields, 2
  {
    hide ParseValue, ParseFields, ParseString, AllSpace, Stops, AfterField, RenderFields, Render, SkipSpace, Ends;
    var next := AfterField(fields.tail, close);
    var k := fields.post + next;
    var v := AfterColon(fields, close);
    FrontKey(fields, close, s);
    AfterFrontField(fields, close);
    LeadingSpace(fields.gap, Render(fields.item, k));
    ParsesSyntax(fields.item, k);
    var key := Denoted(fields.key);
    FieldsStep(s, obj, key, fields.mid + ([COLON] + v), v, Meaning(fields.item), k);
    var obj' := obj[key := Meaning(fields.item)];
    assert obj + FieldMeanings(fields) == obj' + FieldMeanings(fields.tail);
    if fields.tail.NoFields? {
      assert obj' + map[] == obj';
    } else {
      ParsesFields(fields.tail, close, next[1..], obj');
    }
  }

  /** What follows a member ends a number, and begins, but for space, with a comma or the end. */
  lemma AfterFrontField(fields: Fields, close: Text)
    requires fields.Field? && ProperFields(fields) && Ends(close)
    ensures var next := AfterField(fields.tail, close);
            && Stops(fields.post + next) && SkipSpace(fields.post + next) == next
            && (if fields.tail.NoFields? then next == close
                else next != [] && next[0] == COMMA && next[1..] == RenderFields(fields.tail, close))
  {
    hide Render, RenderFields, SkipSpace, AllSpace, Proper;
    assert Ends(AfterField(fields.tail, close));
    StopsAfterSpace(fields.post, AfterField(fields.tail, close));
  }

  /** A whole document: leading space, a text, and trailing space. */
  lemma ParsesDocument(pre: Text, c: Syntax, post: Text)
    requires AllSpace(pre) && Proper(c) && AllSpace(post)
    ensures ParseValue(pre + Render(c, post)) == Parsed(Meaning(c), post)
  {
    LeadingSpace(pre, Render(c, post));
    ParsesSyntax(c, post);
  }
}
