/** The serializer's loops, printability of its output, and JSON carried inside JSON. */
module JsonSerializer {
  import opened Bytes
  import opened JsonString
  import opened JsonNumber
  import opened JsonParser
  import opened JsonSpelling
  import opened JsonSyntax
  import opened JsonPrinter

  // ---- lists that grow at the end ----

  function TreeList(ts: seq<Tree>): Trees {
    if ts == [] then NoTrees else Trees(ts[0], TreeList(ts[1..]))
  }

  function FieldList(fs: seq<(Text, Tree)>): TreeFields {
    if fs == [] then NoTreeFields else TreeFields(fs[0].0, fs[0].1, FieldList(fs[1..]))
  }

  function ItemsText(fmt: Format, ts: seq<Tree>): Text {
    RenderItems(ItemsOf(fmt, TreeList(ts)), [])
  }

  function FieldsText(fmt: Format, fs: seq<(Text, Tree)>): Text {
    RenderFields(FieldsOf(fmt, FieldList(fs)), [])
  }

  /** One member as the loop prints it. */
  function MemberText(fmt: Format, key: Text, t: Tree): Text {
    [QUOTE] + Escaped(key) + [QUOTE, COLON] + Print(fmt, t)
  }

  function Separator(first: bool): Text {
    if first then [] else [COMMA]
  }

  /** The text of the elements from `ts`, with its leading comma. */
  function MoreItems(fmt: Format, ts: seq<Tree>): Text {
    if ts == [] then [] else [COMMA] + ItemsText(fmt, ts)
  }

  function MoreFields(fmt: Format, fs: seq<(Text, Tree)>): Text {
    if fs == [] then [] else [COMMA] + FieldsText(fmt, fs)
  }

  lemma NoPadding(t: Text)
    ensures [] + t == t && t + [] == t
  {}

  lemma ItemsTextCons(fmt: Format, ts: seq<Tree>)
    requires ts != []
    ensures ItemsText(fmt, ts) == Print(fmt, ts[0]) + MoreItems(fmt, ts[1..])
  {
    hide Render;
    var c := SyntaxOf(fmt, ts[0]);
    var next := MoreItems(fmt, ts[1..]);
    assert ItemsOf(fmt, TreeList(ts)) == Item([], c, [], ItemsOf(fmt, TreeList(ts[1..])));
    NoPadding(next);
    assert ItemsText(fmt, ts) == [] + Render(c, [] + next);
    NoPadding(Render(c, next));
    RenderAppends(c, [], next);
  }

  lemma FieldsTextCons(fmt: Format, fs: seq<(Text, Tree)>)
    requires fs != []
    ensures FieldsText(fmt, fs) == MemberText(fmt, fs[0].0, fs[0].1) + MoreFields(fmt, fs[1..])
  {
    hide Render, Escaped;
    var c := SyntaxOf(fmt, fs[0].1);
    var key := Escaped(fs[0].0);
    PrintedSpelling(fs[0].0);
    var next := MoreFields(fmt, fs[1..]);
    assert FieldsOf(fmt, FieldList(fs)) == Field([], Printed(fs[0].0), [], [], c, [], FieldsOf(fmt, FieldList(fs[1..])));
    NoPadding(next);
    RenderAppends(c, [], next);
    var v := Print(fmt, fs[0].1);
    assert Render(c, [] + next) == v + next;
    assert FieldsText(fmt, fs) == [] + ([QUOTE] + (key + [QUOTE] + ([] + ([COLON] + ([] + (v + next))))));
    MemberShape(key, v, next);
  }

  lemma MemberShape(key: Text, v: Text, next: Text)
    ensures [] + ([QUOTE] + (key + [QUOTE] + ([] + ([COLON] + ([] + (v + next))))))
         == [QUOTE] + key + [QUOTE, COLON] + v + next
  {}

  lemma {:induction false} ItemsTextSnoc(fmt: Format, ts: seq<Tree>, t: Tree)
    ensures ItemsText(fmt, ts + [t]) == ItemsText(fmt, ts) + (Separator(ts == []) + Print(fmt, t))
  {
    hide ItemsText, Print;
    ItemsTextCons(fmt, ts + [t]);
    if ts == [] {
      assert (ts + [t])[1..] == [];
      NoItemsText(fmt);
      NoPadding(Print(fmt, t));
      NoPadding([] + Print(fmt, t));
    } else {
      var rest := ts[1..];
      assert (ts + [t])[1..] == rest + [t];
      ItemsTextSnoc(fmt, rest, t);
      ItemsTextCons(fmt, ts);
      NoItemsText(fmt);
      SnocShape(Print(fmt, ts[0]), ItemsText(fmt, rest), Print(fmt, t), rest == []);
    }
  }

  lemma NoItemsText(fmt: Format)
    ensures ItemsText(fmt, []) == []
  {}

  lemma NoFieldsText(fmt: Format)
    ensures FieldsText(fmt, []) == []
    ensures FlatFields(FieldList([])) == map[] && DistinctFields(FieldList([]))
  {}

  /** Appending `x` to the tail of a list is appending it to the list. */
  lemma SnocShape(head: Text, body: Text, x: Text, last: bool)
    requires last ==> body == []
    ensures head + ([COMMA] + (body + (Separator(last) + x)))
         == head + (if last then [] else [COMMA] + body) + ([COMMA] + x)
  {}

  lemma {:induction false} TreeListSnoc(ts: seq<Tree>, t: Tree)
    ensures FlatItems(TreeList(ts + [t])) == FlatItems(TreeList(ts)) + [Flat(t)]
    ensures DistinctItems(TreeList(ts + [t])) <==> DistinctItems(TreeList(ts)) && Distinct(t)
  {
    if ts == [] {
      assert [t][1..] == [] && ts + [t] == [t];
    } else {
      assert (ts + [t])[1..] == ts[1..] + [t];
      TreeListSnoc(ts[1..], t);
    }
  }

  lemma {:induction false} FieldsTextSnoc(fmt: Format, fs: seq<(Text, Tree)>, k: Text, t: Tree)
    ensures FieldsText(fmt, fs + [(k, t)]) == FieldsText(fmt, fs) + (Separator(fs == []) + MemberText(fmt, k, t))
  {
    hide FieldsText, MemberText;
    FieldsTextCons(fmt, fs + [(k, t)]);
    if fs == [] {
      assert (fs + [(k, t)])[1..] == [];
      NoFieldsText(fmt);
      NoPadding(MemberText(fmt, k, t));
      NoPadding([] + MemberText(fmt, k, t));
    } else {
      var rest := fs[1..];
      assert (fs + [(k, t)])[1..] == rest + [(k, t)];
      FieldsTextSnoc(fmt, rest, k, t);
      FieldsTextCons(fmt, fs);
      NoFieldsText(fmt);
      SnocShape(MemberText(fmt, fs[0].0, fs[0].1), FieldsText(fmt, rest), MemberText(fmt, k, t), rest == []);
    }
  }

  lemma {:induction false} FlatFieldsSnoc(fs: seq<(Text, Tree)>, k: Text, t: Tree)
    ensures FlatFields(FieldList(fs + [(k, t)])) == FlatFields(FieldList(fs)) + map[k := Flat(t)]
    ensures k !in FlatFields(FieldList(fs)) && Distinct(t) && DistinctFields(FieldList(fs))
        ==> DistinctFields(FieldList(fs + [(k, t)]))
  {
    if fs == [] {
      assert [(k, t)][1..] == [] && fs + [(k, t)] == [(k, t)];
    } else {
      assert (fs + [(k, t)])[1..] == fs[1..] + [(k, t)];
      FlatFieldsSnoc(fs[1..], k, t);
    }
  }

  // ---- the serializer ----

  /** `out` prints `v` with the keys of each object in some order. */
  ghost predicate Prints(fmt: Format, v: Value, out: Text) {
    exists t :: Orders(v, t) && out == Print(fmt, t)
  }

  method Serialize(v: Value, fmt: Format) returns (out: Text)
    ensures Prints(fmt, v, out)
    decreases v
  {
    Words();
    ghost var t: Tree;
    match v {
    case Null => out, t := NULL, TNull;
    case Bool(b) => out, t := if b then TRUE else FALSE, TBool(b);
    case Num(d) => out, t := LiteralText(NumberOf(fmt, d), []), TNum(d);
    case Str(s) =>
      out := Escape(s);
      out := [QUOTE] + (out + [QUOTE] + []);
      PrintedSpelling(s);
      t := TStr(s);
    case Arr(items) =>
      out := SerializeItems(v, fmt);
      t :| Orders(v, t) && out == Print(fmt, t);
    case Obj(fields) =>
      out := SerializeFields(v, fmt);
      t :| Orders(v, t) && out == Print(fmt, t);
    }
    assert Orders(v, t) && out == Print(fmt, t);
  }

  method SerializeItems(v: Value, fmt: Format) returns (out: Text)
    requires v.Arr?
    ensures Prints(fmt, v, out)
    decreases v, 0
  {
    NoItemsText(fmt);
    assert FlatItems(TreeList([])) == [] && DistinctItems(TreeList([]));
    hide ItemsText, Print, Orders, FlatItems, DistinctItems, TreeList;
    var body := [];
    ghost var ts := [];
    var i := 0;
    while i < |v.items|
      invariant 0 <= i == |ts| <= |v.items|
      invariant body == ItemsText(fmt, ts)
      invariant FlatItems(TreeList(ts)) == v.items[..i] && DistinctItems(TreeList(ts))
    {
      var elem := Serialize(v.items[i], fmt);
      ghost var order :| Orders(v.items[i], order) && elem == Print(fmt, order);
      OrderMeans(v.items[i], order);
      ItemsTextSnoc(fmt, ts, order);
      TreeListSnoc(ts, order);
      body := body + (Separator(i == 0) + elem);
      ts := ts + [order];
      i := i + 1;
    }
    assert v.items[..i] == v.items;
    out := [LBRACKET] + (body + [RBRACKET]);
    ItemsFrame(fmt, ts);
    ItemsOrder(v, ts);
  }

  lemma OrderMeans(v: Value, t: Tree)
    requires Orders(v, t)
    ensures Flat(t) == v && Distinct(t)
  {}

  lemma ItemsOrder(v: Value, ts: seq<Tree>)
    requires v.Arr? && FlatItems(TreeList(ts)) == v.items && DistinctItems(TreeList(ts))
    ensures Orders(v, TArr(TreeList(ts)))
  {}

  lemma ItemsFrame(fmt: Format, ts: seq<Tree>)
    ensures Print(fmt, TArr(TreeList(ts))) == [LBRACKET] + (ItemsText(fmt, ts) + [RBRACKET])
  {
    ItemsAppend(ItemsOf(fmt, TreeList(ts)), [], [RBRACKET]);
    assert [] + [RBRACKET] == [RBRACKET] == [RBRACKET] + [];
  }

  lemma FieldsFrame(fmt: Format, fs: seq<(Text, Tree)>)
    ensures Print(fmt, TObj(FieldList(fs))) == [LBRACE] + (FieldsText(fmt, fs) + [RBRACE])
  {
    ObjectFrame(FieldsOf(fmt, FieldList(fs)));
    hide RenderFields, FieldList, FieldsOf;
  }

  lemma ObjectFrame(fields: Fields)
    ensures Render(SObj([], fields), []) == [LBRACE] + (RenderFields(fields, []) + [RBRACE])
  {
    FieldsAppend(fields, [], [RBRACE]);
    assert [] + [RBRACE] == [RBRACE] == [RBRACE] + [];
  }

  method SerializeFields(v: Value, fmt: Format) returns (out: Text)
    requires v.Obj?
    ensures Prints(fmt, v, out)
    decreases v, 0
  {
    NoFieldsText(fmt);
    hide FieldsText, MemberText, Orders, FlatFields, DistinctFields, FieldList, Print, Escaped, Flat, Distinct;
    var body := [];
    ghost var fs := [];
    var keys := v.fields.Keys;
    var first := true;
    while keys != {}
      invariant keys <= v.fields.Keys
      invariant first == (fs == [])
      invariant body == FieldsText(fmt, fs)
      invariant FlatFields(FieldList(fs)) == v.fields - keys && DistinctFields(FieldList(fs))
      decreases keys
    {
      var key :| key in keys;
      var val := Serialize(v.fields[key], fmt);
      ghost var order :| Orders(v.fields[key], order) && val == Print(fmt, order);
      var name := Escape(key);
      OrderMeans(v.fields[key], order);
      MemberIs(fmt, key, order);
      FieldsTextSnoc(fmt, fs, key, order);
      FlatFieldsSnoc(fs, key, order);
      body := body + (Separator(first) + ([QUOTE] + name + [QUOTE, COLON] + val));
      first := false;
      fs := fs + [(key, order)];
      keys := keys - {key};
    }
    assert v.fields - {} == v.fields;
    out := [LBRACE] + (body + [RBRACE]);
    FieldsFrame(fmt, fs);
    FieldsOrder(v, fs);
  }

  lemma MemberIs(fmt: Format, key: Text, t: Tree)
    ensures MemberText(fmt, key, t) == [QUOTE] + Escaped(key) + [QUOTE, COLON] + Print(fmt, t)
  {}

  lemma FieldsOrder(v: Value, fs: seq<(Text, Tree)>)
    requires v.Obj? && FlatFields(FieldList(fs)) == v.fields && DistinctFields(FieldList(fs))
    ensures Orders(v, TObj(FieldList(fs)))
  {}

  // ---- printability, and JSON inside JSON ----

  lemma LiteralIsPrintable(l: Number, after: Text)
    requires Printable(after)
    ensures Printable(LiteralText(l, after))
  {
    var e := ExponentText(l.exponent, after);
    assert Printable(e);
    assert Printable(FracText(l.frac, e));
  }

  lemma WordsArePrintable(after: Text)
    requires Printable(after)
    ensures Printable(Ascii("null") + after) && Printable(Ascii("true") + after) && Printable(Ascii("false") + after)
  {
    Words();
  }

  lemma StringIsPrintable(s: Text, after: Text)
    requires Printable(after)
    ensures Printable([QUOTE] + (Spelled(Printed(s)) + [QUOTE] + after))
  {
    hide Escaped, Spelled, Printed;
    EscapedIsPrintable(s);
    PrintedSpelling(s);
  }

  lemma {:induction false} PrintedIsPrintable(fmt: Format, t: Tree, after: Text)
    requires Printable(after)
    ensures Printable(Render(SyntaxOf(fmt, t), after))
    decreases t, 1
  {
    match t
    case TNull => WordsArePrintable(after);
    case TBool(_) => WordsArePrintable(after);
    case TNum(d) => LiteralIsPrintable(NumberOf(fmt, d), after);
    case TStr(s) => StringIsPrintable(s, after);
    case TArr(items) => ItemsArePrintable(fmt, items, [RBRACKET] + after);
    case TObj(fields) => FieldsArePrintable(fmt, fields, [RBRACE] + after);
  }

  lemma {:induction false} ItemsArePrintable(fmt: Format, items: Trees, after: Text)
    requires Printable(after)
    ensures Printable(RenderItems(ItemsOf(fmt, items), after))
    decreases items, 0
  {
    if items.Trees? {
      ItemsArePrintable(fmt, items.tail, after);
      var next := if items.tail.NoTrees? then after else [COMMA] + RenderItems(ItemsOf(fmt, items.tail), after);
      PrintedIsPrintable(fmt, items.head, [] + next);
    }
  }

  lemma {:induction false} FieldsArePrintable(fmt: Format, fields: TreeFields, after: Text)
    requires Printable(after)
    ensures Printable(RenderFields(FieldsOf(fmt, fields), after))
    decreases fields, 0
  {
    if fields.TreeFields? {
      FieldsArePrintable(fmt, fields.tail, after);
      var next := if fields.tail.NoTreeFields? then after
                  else [COMMA] + RenderFields(FieldsOf(fmt, fields.tail), after);
      var v := Render(SyntaxOf(fmt, fields.head), [] + next);
      PrintedIsPrintable(fmt, fields.head, [] + next);
      EscapedIsPrintable(fields.key);
      PrintedSpelling(fields.key);
      hide Printable, Render, Escaped, Spelled, SyntaxOf;
      assert RenderFields(FieldsOf(fmt, fields), after)
          == [] + ([QUOTE] + (Escaped(fields.key) + [QUOTE] + ([] + ([COLON] + ([] + v)))));
      MemberIsPrintable(Escaped(fields.key), v);
    }
  }

  lemma MemberIsPrintable(key: Text, v: Text)
    requires Printable(key) && Printable(v)
    ensures Printable([] + ([QUOTE] + (key + [QUOTE] + ([] + ([COLON] + ([] + v))))))
  {}

  /** Serialized text quoted as a string inside another serialized text comes back byte for
      byte, whatever the inner value is, so a nested payload parses as it would have alone. */
  lemma NestedPayload(fmt: Format, inner: Tree, after: Text)
    ensures ParseValue(Print(fmt, TStr(Print(fmt, inner))) + after) == Parsed(Str(Print(fmt, inner)), after)
    ensures ParseValue(Print(fmt, inner)).value == Reread(fmt, inner)
  {
    var text := Print(fmt, inner);
    PrintedIsPrintable(fmt, inner, []);
    AsciiIsCanonical(text);
    NormalFixpoints(text);
    PrintThenParse(fmt, TStr(text), after);
    PrintThenParse(fmt, inner, []);
    assert text + [] == text;
  }

}
