/** The serializer, and what happens when its output is parsed again. */
module JsonPrinter {
  import opened Bytes
  import opened JsonString
  import opened JsonNumber
  import opened JsonParser
  import opened JsonSpelling
  import opened JsonSyntax

  /** A value whose objects have been laid out in one of their possible iteration orders. */
  datatype Tree =
    | TNull
    | TBool(b: bool)
    | TNum(d: real)
    | TStr(s: Text)
    | TArr(items: Trees)
    | TObj(fields: TreeFields)

  datatype Trees = NoTrees | Trees(head: Tree, tail: Trees)

  datatype TreeFields = NoTreeFields | TreeFields(key: Text, head: Tree, tail: TreeFields)

  /** How the output stream prints a double that is not a 32-bit integer. */
  type Format = real -> Number

  predicate IsInt32(d: real) {
    d == d.Floor as real && -0x8000_0000 <= d.Floor < 0x8000_0000
  }

  // ---- orders of a value ----

  function Flat(t: Tree): Value
    decreases t
  {
    match t
    case TNull => Null
    case TBool(b) => Bool(b)
    case TNum(d) => Num(d)
    case TStr(s) => Str(s)
    case TArr(items) => Arr(FlatItems(items))
    case TObj(fields) => Obj(FlatFields(fields))
  }

  function FlatItems(items: Trees): seq<Value>
    decreases items
  {
    if items.NoTrees? then [] else [Flat(items.head)] + FlatItems(items.tail)
  }

  function FlatFields(fields: TreeFields): map<Text, Value>
    decreases fields
  {
    if fields.NoTreeFields? then map[] else map[fields.key := Flat(fields.head)] + FlatFields(fields.tail)
  }

  predicate Distinct(t: Tree)
    decreases t
  {
    match t
    case TArr(items) => DistinctItems(items)
    case TObj(fields) => DistinctFields(fields)
    case _ => true
  }

  predicate DistinctItems(items: Trees)
    decreases items
  {
    items.Trees? ==> Distinct(items.head) && DistinctItems(items.tail)
  }

  predicate DistinctFields(fields: TreeFields)
    decreases fields
  {
    fields.TreeFields? ==>
      && fields.key !in FlatFields(fields.tail) && Distinct(fields.head) && DistinctFields(fields.tail)
  }

  /** `t` lists every object of `v` once through, in some order. */
  predicate Orders(v: Value, t: Tree) {
    Flat(t) == v && Distinct(t)
  }

  // ---- the printed text ----

  function NumberOf(fmt: Format, d: real): Number {
    if IsInt32(d) then IntLiteral(d.Floor) else fmt(d)
  }

  function SyntaxOf(fmt: Format, t: Tree): Syntax
    decreases t
  {
    match t
    case TNull => SNull
    case TBool(b) => SBool(b)
    case TNum(d) => SNum(NumberOf(fmt, d))
    case TStr(s) => SStr(Printed(s))
    case TArr(items) => SArr([], ItemsOf(fmt, items))
    case TObj(fields) => SObj([], FieldsOf(fmt, fields))
  }

  function ItemsOf(fmt: Format, items: Trees): Items
    decreases items
  {
    if items.NoTrees? then NoItems else Item([], SyntaxOf(fmt, items.head), [], ItemsOf(fmt, items.tail))
  }

  function FieldsOf(fmt: Format, fields: TreeFields): Fields
    decreases fields
  {
    if fields.NoTreeFields? then NoFields
    else Field([], Printed(fields.key), [], [], SyntaxOf(fmt, fields.head), [], FieldsOf(fmt, fields.tail))
  }

  function Print(fmt: Format, t: Tree): Text {
    Render(SyntaxOf(fmt, t), [])
  }

  lemma {:induction false} PrintsProperly(fmt: Format, t: Tree)
    ensures Proper(SyntaxOf(fmt, t))
    decreases t, 1
  {
    match t
    case TArr(items) => ItemsPrintProperly(fmt, items);
    case TObj(fields) => FieldsPrintProperly(fmt, fields);
    case _ =>
  }

  lemma {:induction false} ItemsPrintProperly(fmt: Format, items: Trees)
    ensures ProperItems(ItemsOf(fmt, items))
    decreases items, 0
  {
    if items.Trees? {
      PrintsProperly(fmt, items.head);
      ItemsPrintProperly(fmt, items.tail);
    }
  }

  lemma {:induction false} FieldsPrintProperly(fmt: Format, fields: TreeFields)
    ensures ProperFields(FieldsOf(fmt, fields))
    decreases fields, 0
  {
    if fields.TreeFields? {
      PrintsProperly(fmt, fields.head);
      FieldsPrintProperly(fmt, fields.tail);
    }
  }

  // ---- print, then parse ----

  /** What the printed text of `t` is read back as: every string and key in normal form,
      every number through its printed literal. */
  function Reread(fmt: Format, t: Tree): Value
    decreases t
  {
    match t
    case TNull => Null
    case TBool(b) => Bool(b)
    case TNum(d) => Num(LiteralValue(NumberOf(fmt, d)))
    case TStr(s) => Str(Normal(s))
    case TArr(items) => Arr(RereadItems(fmt, items))
    case TObj(fields) => Obj(RereadFields(fmt, fields))
  }

  function RereadItems(fmt: Format, items: Trees): seq<Value>
    decreases items
  {
    if items.NoTrees? then [] else [Reread(fmt, items.head)] + RereadItems(fmt, items.tail)
  }

  function RereadFields(fmt: Format, fields: TreeFields): map<Text, Value>
    decreases fields
  {
    if fields.NoTreeFields? then map[]
    else map[Normal(fields.key) := Reread(fmt, fields.head)] + RereadFields(fmt, fields.tail)
  }

  lemma {:induction false} RereadIsMeaning(fmt: Format, t: Tree)
    ensures Meaning(SyntaxOf(fmt, t)) == Reread(fmt, t)
    decreases t, 1
  {
    match t
    case TStr(s) => PrintedSpelling(s);
    case TArr(items) => RereadItemsIsMeaning(fmt, items);
    case TObj(fields) => RereadFieldsIsMeaning(fmt, fields);
    case _ =>
  }

  lemma {:induction false} RereadItemsIsMeaning(fmt: Format, items: Trees)
    ensures ItemMeanings(ItemsOf(fmt, items)) == RereadItems(fmt, items)
    decreases items, 0
  {
    if items.Trees? {
      RereadIsMeaning(fmt, items.head);
      RereadItemsIsMeaning(fmt, items.tail);
    }
  }

  lemma {:induction false} RereadFieldsIsMeaning(fmt: Format, fields: TreeFields)
    ensures FieldMeanings(FieldsOf(fmt, fields)) == RereadFields(fmt, fields)
    decreases fields, 0
  {
    if fields.TreeFields? {
      PrintedSpelling(fields.key);
      RereadIsMeaning(fmt, fields.head);
      RereadFieldsIsMeaning(fmt, fields.tail);
    }
  }

  /** Parsing the printed text of any value, laid out in any order and followed by any text
      that does not continue a number, stops exactly at its end. */
  lemma PrintThenParse(fmt: Format, t: Tree, after: Text)
    requires t.TNum? ==> Stops(after)
    ensures ParseValue(Print(fmt, t) + after) == Parsed(Reread(fmt, t), after)
  {
    var c := SyntaxOf(fmt, t);
    PrintsProperly(fmt, t);
    RereadIsMeaning(fmt, t);
    ParsesSyntax(c, after);
    RenderAppends(c, [], after);
    assert [] + after == after;
  }

  /** Nothing in `t` is changed by printing and parsing: strings and keys are canonical, and
      each number equals its printed literal. */
  predicate Clean(fmt: Format, t: Tree)
    decreases t
  {
    match t
    case TNum(d) => IsInt32(d) || LiteralValue(fmt(d)) == d
    case TStr(s) => Canonical(s)
    case TArr(items) => CleanItems(fmt, items)
    case TObj(fields) => CleanFields(fmt, fields)
    case _ => true
  }

  predicate CleanItems(fmt: Format, items: Trees)
    decreases items
  {
    items.Trees? ==> Clean(fmt, items.head) && CleanItems(fmt, items.tail)
  }

  predicate CleanFields(fmt: Format, fields: TreeFields)
    decreases fields
  {
    fields.TreeFields? ==>
      Canonical(fields.key) && Clean(fmt, fields.head) && CleanFields(fmt, fields.tail)
  }

  lemma {:induction false} RereadKeysAreCanonical(fmt: Format, fields: TreeFields)
    ensures forall k | k in RereadFields(fmt, fields) :: Canonical(k)
  {
    if fields.TreeFields? {
      NormalIsCanonical(fields.key);
      RereadKeysAreCanonical(fmt, fields.tail);
    }
  }

  lemma {:induction false} CanonicalKeysStay(fmt: Format, fields: TreeFields)
    requires forall k | k in FlatFields(fields) :: Canonical(k)
    ensures RereadFields(fmt, fields).Keys == FlatFields(fields).Keys
  {
    if fields.TreeFields? {
      assert fields.key in FlatFields(fields);
      NormalFixpoints(fields.key);
      assert forall k | k in FlatFields(fields.tail) :: k in FlatFields(fields);
      CanonicalKeysStay(fmt, fields.tail);
    }
  }

  lemma {:induction false} RereadUnchanged(fmt: Format, t: Tree)
    requires Distinct(t)
    ensures Reread(fmt, t) == Flat(t) <==> Clean(fmt, t)
    decreases t, 1
  {
    match t
    case TNum(d) => if IsInt32(d) { IntLiteralValue(d.Floor); }
    case TStr(s) => NormalFixpoints(s);
    case TArr(items) => ItemsUnchanged(fmt, items);
    case TObj(fields) => FieldsUnchanged(fmt, fields);
    case _ =>
  }

  lemma {:induction false} ItemsUnchanged(fmt: Format, items: Trees)
    requires DistinctItems(items)
    ensures RereadItems(fmt, items) == FlatItems(items) <==> CleanItems(fmt, items)
    decreases items, 0
  {
    if items.Trees? {
      RereadUnchanged(fmt, items.head);
      ItemsUnchanged(fmt, items.tail);
      var a, b := RereadItems(fmt, items), FlatItems(items);
      assert a[0] == Reread(fmt, items.head) && a[1..] == RereadItems(fmt, items.tail);
      assert b[0] == Flat(items.head) && b[1..] == FlatItems(items.tail);
    }
  }

  lemma {:induction false} FieldsUnchanged(fmt: Format, fields: TreeFields)
    requires DistinctFields(fields)
    ensures RereadFields(fmt, fields) == FlatFields(fields) <==> CleanFields(fmt, fields)
    decreases fields, 0
  {
    if fields.TreeFields? {
      RereadUnchanged(fmt, fields.head);
      FieldsUnchanged(fmt, fields.tail);
      var k := fields.key;
      var a, b := RereadFields(fmt, fields), FlatFields(fields);
      var a', b' := RereadFields(fmt, fields.tail), FlatFields(fields.tail);
      NormalFixpoints(k);
      if a == b {
        RereadKeysAreCanonical(fmt, fields);
        assert k in b;
        assert forall x | x in b' :: x in b;
        CanonicalKeysStay(fmt, fields.tail);
        assert a == map[k := Reread(fmt, fields.head)] + a' && k !in a';
        assert a[k] == Reread(fmt, fields.head) && b[k] == Flat(fields.head);
        assert a - {k} == a' && b - {k} == b';
      }
    }
  }

  /** The exact round trip: printing `v` in any iteration order and parsing gives back `v`
      precisely when nothing in it is changed by the string escapes or the number format. */
  lemma RoundTrip(fmt: Format, v: Value, t: Tree, after: Text)
    requires Orders(v, t) && (v.Num? ==> Stops(after))
    ensures ParseValue(Print(fmt, t) + after) == Parsed(v, after) <==> Clean(fmt, t)
  {
    PrintThenParse(fmt, t, after);
    RereadUnchanged(fmt, t);
  }

  // ---- numbers ----

  /** Decimal digits without a leading zero, or "0". */
  predicate PlainDecimal(digits: Text, n: nat) {
    && digits != [] && (forall i | 0 <= i < |digits| :: digits[i] in Ascii("0123456789"))
    && Weighed(digits) == n && (digits[0] == Ascii("0")[0] ==> n == 0 && |digits| == 1)
  }

  /** Exactly the whole numbers of 32 bits are printed in decimal. */
  lemma PrintedNumber(fmt: Format, d: real)
    ensures var t := Print(fmt, TNum(d));
            if d == d.Floor as real && -2147483648 <= d.Floor <= 2147483647 then
              if d.Floor < 0 then |t| > 0 && t[..1] == Ascii("-") && PlainDecimal(t[1..], -d.Floor)
              else PlainDecimal(t, d.Floor)
            else t == LiteralText(fmt(d), [])
  {
    if IsInt32(d) {
      var n := if d.Floor < 0 then -d.Floor else d.Floor;
      var digits := DecimalNat(n);
      assert digits + [] == digits;
      assert Print(fmt, TNum(d)) == if d.Floor < 0 then [MINUS] + digits else digits;
      forall i | 0 <= i < |digits| ensures digits[i] in Ascii("0123456789") { DigitCharacters(digits[i]); }
      DecimalShape(n);
      DecimalValue(n);
      DigitsAreWeighed(digits);
      assert Ascii("-") == [MINUS] && Ascii("0") == [48];
    }
  }
}
