/** Which values survive being serialized and parsed again, in whatever order their objects are
    printed. */
module JsonValues {
  import opened Bytes
  import opened JsonString
  import opened JsonNumber
  import opened JsonParser
  import opened JsonSyntax
  import opened JsonPrinter
  import opened JsonSerializer

  predicate CleanNumber(fmt: Format, d: real) {
    IsInt32(d) || LiteralValue(fmt(d)) == d
  }

  /** All strings and keys are canonical, and all numbers print exactly. */
  predicate CleanValue(fmt: Format, v: Value)
    decreases v
  {
    match v
    case Num(d) => CleanNumber(fmt, d)
    case Str(s) => Canonical(s)
    case Arr(items) => forall i | 0 <= i < |items| :: CleanValue(fmt, items[i])
    case Obj(fields) => forall k | k in fields :: Canonical(k) && CleanValue(fmt, fields[k])
    case _ => true
  }

  predicate CleanList(fmt: Format, items: seq<Value>) {
    forall i | 0 <= i < |items| :: CleanValue(fmt, items[i])
  }

  predicate CleanMap(fmt: Format, fields: map<Text, Value>) {
    forall k | k in fields :: Canonical(k) && CleanValue(fmt, fields[k])
  }

  lemma ListSplit(fmt: Format, head: Value, tail: seq<Value>)
    ensures CleanList(fmt, [head] + tail) <==> CleanValue(fmt, head) && CleanList(fmt, tail)
  {
    hide CleanValue;
    var all := [head] + tail;
    assert all[0] == head;
    if CleanList(fmt, all) {
      forall i | 0 <= i < |tail| ensures CleanValue(fmt, tail[i]) { assert all[i + 1] == tail[i]; }
    }
  }

  lemma MapSplit(fmt: Format, key: Text, head: Value, tail: map<Text, Value>)
    requires key !in tail
    ensures CleanMap(fmt, map[key := head] + tail) <==>
      Canonical(key) && CleanValue(fmt, head) && CleanMap(fmt, tail)
  {
    hide CleanValue, Canonical;
    var all := map[key := head] + tail;
    assert key in all && all[key] == head;
    if CleanMap(fmt, all) {
      forall k | k in tail ensures Canonical(k) && CleanValue(fmt, tail[k]) { assert k in all && all[k] == tail[k]; }
    }
  }

  lemma {:induction false} CleanInAnyOrder(fmt: Format, t: Tree)
    requires Distinct(t)
    ensures Clean(fmt, t) <==> CleanValue(fmt, Flat(t))
    decreases t, 1
  {
    match t
    case TArr(items) => CleanItemsAre(fmt, items);
    case TObj(fields) => CleanFieldsAre(fmt, fields);
    case _ =>
  }

  lemma {:induction false} CleanItemsAre(fmt: Format, items: Trees)
    requires DistinctItems(items)
    ensures CleanItems(fmt, items) <==> CleanList(fmt, FlatItems(items))
    decreases items, 0
  {
    if items.Trees? {
      CleanInAnyOrder(fmt, items.head);
      CleanItemsAre(fmt, items.tail);
      ListSplit(fmt, Flat(items.head), FlatItems(items.tail));
    }
  }

  lemma {:induction false} CleanFieldsAre(fmt: Format, fields: TreeFields)
    requires DistinctFields(fields)
    ensures CleanFields(fmt, fields) <==> CleanMap(fmt, FlatFields(fields))
    decreases fields, 0
  {
    if fields.TreeFields? {
      CleanInAnyOrder(fmt, fields.head);
      CleanFieldsAre(fmt, fields.tail);
      MapSplit(fmt, fields.key, Flat(fields.head), FlatFields(fields.tail));
    }
  }

  /** Serializing a value and parsing the result gives the value back, whatever order the
      serializer meets its keys in, exactly when the value is clean. */
  lemma SerializeThenParse(fmt: Format, v: Value, out: Text)
    requires Prints(fmt, v, out)
    ensures ParseValue(out).value == v <==> CleanValue(fmt, v)
  {
    var t :| Orders(v, t) && out == Print(fmt, t);
    assert out + [] == out;
    PrintThenParse(fmt, t, []);
    RereadUnchanged(fmt, t);
    CleanInAnyOrder(fmt, t);
  }

  // ---- what parsing a serialized value can yield ----

  /** Every string and key is canonical. */
  predicate CanonicalValue(v: Value)
    decreases v
  {
    match v
    case Str(s) => Canonical(s)
    case Arr(items) => forall i | 0 <= i < |items| :: CanonicalValue(items[i])
    case Obj(fields) => forall k | k in fields :: Canonical(k) && CanonicalValue(fields[k])
    case _ => true
  }

  lemma {:induction false} RereadIsCanonical(fmt: Format, t: Tree)
    ensures CanonicalValue(Reread(fmt, t))
    decreases t, 1
  {
    match t
    case TStr(s) => NormalIsCanonical(s);
    case TArr(items) => RereadItemsAreCanonical(fmt, items);
    case TObj(fields) => RereadFieldsAreCanonical(fmt, fields);
    case _ =>
  }

  lemma {:induction false} RereadItemsAreCanonical(fmt: Format, items: Trees)
    ensures forall i | 0 <= i < |RereadItems(fmt, items)| :: CanonicalValue(RereadItems(fmt, items)[i])
    decreases items, 0
  {
    if items.Trees? {
      RereadIsCanonical(fmt, items.head);
      RereadItemsAreCanonical(fmt, items.tail);
    }
  }

  lemma {:induction false} RereadFieldsAreCanonical(fmt: Format, fields: TreeFields)
    ensures forall k | k in RereadFields(fmt, fields) :: Canonical(k) && CanonicalValue(RereadFields(fmt, fields)[k])
    decreases fields, 0
  {
    if fields.TreeFields? {
      NormalIsCanonical(fields.key);
      RereadIsCanonical(fmt, fields.head);
      RereadFieldsAreCanonical(fmt, fields.tail);
    }
  }

  /** Once text has been through the serializer, everything parsed from it is canonical, even
      if the value serialized was not. */
  lemma SerializedIsCanonical(fmt: Format, v: Value, out: Text)
    requires Prints(fmt, v, out)
    ensures CanonicalValue(ParseValue(out).value)
  {
    var t :| Orders(v, t) && out == Print(fmt, t);
    assert out + [] == out;
    PrintThenParse(fmt, t, []);
    RereadIsCanonical(fmt, t);
  }

  /** Serialized text holds no NUL byte, so it passes through C strings unharmed. */
  lemma SerializedIsPrintable(fmt: Format, v: Value, out: Text)
    requires Prints(fmt, v, out)
    ensures Printable(out) && ParseValue(out).rest == []
  {
    var t :| Orders(v, t) && out == Print(fmt, t);
    assert out + [] == out;
    PrintThenParse(fmt, t, []);
    PrintedIsPrintable(fmt, t, []);
  }

  // ---- what exactly is parsed from a serialized value ----

  predicate CanonicalKeys(v: Value)
    decreases v
  {
    match v
    case Arr(items) => forall i | 0 <= i < |items| :: CanonicalKeys(items[i])
    case Obj(fields) => forall k | k in fields :: Canonical(k) && CanonicalKeys(fields[k])
    case _ => true
  }

  /** Strings in normal form, numbers through their printed literals. */
  function Reprinted(fmt: Format, v: Value): Value
    decreases v
  {
    match v
    case Num(d) => Num(LiteralValue(NumberOf(fmt, d)))
    case Str(s) => Str(Normal(s))
    case Arr(items) => Arr(seq(|items|, i requires 0 <= i < |items| => Reprinted(fmt, items[i])))
    case Obj(fields) => Obj(map k | k in fields :: Reprinted(fmt, fields[k]))
    case _ => v
  }

  function ReprintedList(fmt: Format, items: seq<Value>): seq<Value> {
    seq(|items|, i requires 0 <= i < |items| => Reprinted(fmt, items[i]))
  }

  function ReprintedMap(fmt: Format, fields: map<Text, Value>): map<Text, Value> {
    map k | k in fields :: Reprinted(fmt, fields[k])
  }

  lemma {:induction false} RereadIsReprinted(fmt: Format, t: Tree)
    requires Distinct(t) && CanonicalKeys(Flat(t))
    ensures Reread(fmt, t) == Reprinted(fmt, Flat(t))
    decreases t, 1
  {
    match t
    case TArr(items) => ItemsAreReprinted(fmt, items);
    case TObj(fields) => FieldsAreReprinted(fmt, fields);
    case _ =>
  }

  lemma ReprintedFirst(fmt: Format, head: Value, tail: seq<Value>)
    requires CanonicalKeys(Arr([head] + tail))
    ensures CanonicalKeys(head) && CanonicalKeys(Arr(tail))
    ensures ReprintedList(fmt, [head] + tail) == [Reprinted(fmt, head)] + ReprintedList(fmt, tail)
  {
    hide Reprinted;
    var all := [head] + tail;
    assert all[0] == head && |all| == |tail| + 1;
    forall i | 0 <= i < |tail| ensures CanonicalKeys(tail[i]) && all[i + 1] == tail[i] {
      assert CanonicalKeys(all[i + 1]);
    }
    var list := [Reprinted(fmt, head)] + ReprintedList(fmt, tail);
    forall i | 0 <= i < |all| ensures ReprintedList(fmt, all)[i] == list[i] {
      if i > 0 { assert all[i] == tail[i - 1]; }
    }
  }

  lemma {:induction false} ItemsAreReprinted(fmt: Format, items: Trees)
    requires DistinctItems(items) && CanonicalKeys(Arr(FlatItems(items)))
    ensures RereadItems(fmt, items) == ReprintedList(fmt, FlatItems(items))
    decreases items, 0
  {
    if items.Trees? {
      ReprintedFirst(fmt, Flat(items.head), FlatItems(items.tail));
      hide Flat;
      RereadIsReprinted(fmt, items.head);
      ItemsAreReprinted(fmt, items.tail);
    }
  }

  lemma ReprintedSplit(fmt: Format, key: Text, head: Value, tail: map<Text, Value>)
    requires key !in tail && CanonicalKeys(Obj(map[key := head] + tail))
    ensures Canonical(key) && CanonicalKeys(head) && CanonicalKeys(Obj(tail))
    ensures ReprintedMap(fmt, map[key := head] + tail) == map[key := Reprinted(fmt, head)] + ReprintedMap(fmt, tail)
  {
    hide Canonical, Reprinted;
    var all := map[key := head] + tail;
    assert key in all && all[key] == head;
    assert forall k | k in tail :: k in all && all[k] == tail[k];
  }

  lemma {:induction false} FieldsAreReprinted(fmt: Format, fields: TreeFields)
    requires DistinctFields(fields) && CanonicalKeys(Obj(FlatFields(fields)))
    ensures RereadFields(fmt, fields) == ReprintedMap(fmt, FlatFields(fields))
    decreases fields, 0
  {
    if fields.TreeFields? {
      ReprintedSplit(fmt, fields.key, Flat(fields.head), FlatFields(fields.tail));
      hide Flat;
      NormalFixpoints(fields.key);
      RereadIsReprinted(fmt, fields.head);
      FieldsAreReprinted(fmt, fields.tail);
    }
  }

  /** If no two keys can be confused, parsing the serialized text of a value gives it with its
      strings in normal form and its numbers as printed, in whatever order it was printed. */
  lemma SerializedIsReprinted(fmt: Format, v: Value, out: Text)
    requires Prints(fmt, v, out) && CanonicalKeys(v)
    ensures ParseValue(out).value == Reprinted(fmt, v)
  {
    var t :| Orders(v, t) && out == Print(fmt, t);
    assert out + [] == out;
    PrintThenParse(fmt, t, []);
    RereadIsReprinted(fmt, t);
  }
}
