/** The table of time windows: rows whose list columns are JSON texts, and the path of a window
    from a client's request into the table and back to a client. */
module WindowStore {
  import opened Bytes
  import opened Common
  import opened JsonString
  import opened JsonNumber
  import opened JsonParser
  import opened JsonPrinter
  import opened JsonSerializer
  import opened JsonValues
  import opened TimeWindows
  import opened WindowJson

  // ---- C strings ----

  predicate NulFree(s: Text) {
    NUL !in s
  }

  /** What is left of a string that is passed on as a pointer to its bytes. */
  function CText(s: Text): Text {
    if s == [] || s[0] == NUL then [] else [s[0]] + CText(s[1..])
  }

  lemma {:induction false} CTextIs(s: Text)
    ensures CText(s) == s <==> NulFree(s)
    ensures NulFree(CText(s)) && |CText(s)| <= |s|
    ensures Canonical(s) ==> Canonical(CText(s))
  {
    if s != [] && s[0] != NUL {
      CTextIs(s[1..]);
      assert s == [s[0]] + s[1..];
      assert CText(s)[1..] == CText(s[1..]);
    }
    if Canonical(s) { CTextIsCanonical(s); }
  }

  lemma {:induction false} CTextIsCanonical(s: Text)
    requires Canonical(s)
    ensures Canonical(CText(s))
  {
    if s != [] && s[0] != NUL {
      var n := CharLen(s);
      var rest := s[n..];
      CTextIsCanonical(rest);
      CTextSkips(s, n);
      CharThenRest(s, CText(rest));
    }
  }

  lemma {:induction false} CTextSkips(s: Text, n: nat)
    requires n <= |s| && forall i | 0 <= i < n :: s[i] != NUL
    ensures CText(s) == s[..n] + CText(s[n..])
  {
    if n > 0 {
      CTextSkips(s[1..], n - 1);
      assert s[1..][n - 1..] == s[n..] && s[..n] == [s[0]] + s[1..][..n - 1];
    }
  }

  lemma CharThenRest(s: Text, t: Text)
    requires CharLen(s) > 0 && Canonical(t)
    ensures Canonical(s[..CharLen(s)] + t)
  {
    var n := CharLen(s);
    var u := s[..n] + t;
    assert forall i | 0 <= i < n :: u[i] == s[i];
    assert CharLen(u) == n && u[n..] == t;
  }

  lemma PrintableIsNulFree(s: Text)
    requires Printable(s)
    ensures CText(s) == s
  {
    CTextIs(s);
  }

  function COpt(t: Option<Text>): Option<Text> {
    if t.Some? then Some(CText(t.value)) else None
  }

  // ---- rows ----

  datatype Row = Row(
    id: Text, taskId: Text, kind: Int32, startDate: Option<Text>, endDate: Option<Text>,
    daysOfWeek: Text, daysOfMonth: Text, specificDates: Text, exactTimes: Text,
    startTime: Option<Text>, endTime: Option<Text>, repeatInterval: Option<Int32>, repeatUntil: Option<Text>)

  ghost predicate Column(fmt: Format, items: seq<Value>, column: Text) {
    exists text :: Prints(fmt, Arr(items), text) && column == CText(text)
  }

  ghost predicate StoredAs(fmt: Format, w: Window, r: Row) {
    && r.id == CText(w.id) && r.taskId == CText(w.taskId) && r.kind == w.kind
    && r.startDate == COpt(w.startDate) && r.endDate == COpt(w.endDate)
    && Column(fmt, Numbers(w.daysOfWeek), r.daysOfWeek) && Column(fmt, Numbers(w.daysOfMonth), r.daysOfMonth)
    && Column(fmt, Strings(w.specificDates), r.specificDates) && Column(fmt, Strings(w.exactTimes), r.exactTimes)
    && r.startTime == COpt(w.startTime) && r.endTime == COpt(w.endTime)
    && r.repeatInterval == w.repeatInterval && r.repeatUntil == COpt(w.repeatUntil)
  }

  predicate AllNumbers(items: seq<Value>) {
    forall i | 0 <= i < |items| :: items[i].Num?
  }

  predicate AllStrings(items: seq<Value>) {
    forall i | 0 <= i < |items| :: items[i].Str?
  }

  function NumbersOf(items: seq<Value>): seq<Int32>
    requires AllNumbers(items)
  {
    seq(|items|, i requires 0 <= i < |items| => AsInt(items[i].d))
  }

  function StringsOf(items: seq<Value>): seq<Text>
    requires AllStrings(items)
  {
    seq(|items|, i requires 0 <= i < |items| => items[i].s)
  }

  /** Every item must be a number; anything else raises an exception. */
  function IntsIn(column: Text): Option<seq<Int32>> {
    var v := ParseValue(column).value;
    if !v.Arr? then Some([]) else if AllNumbers(v.items) then Some(NumbersOf(v.items)) else None
  }

  function TextsIn(column: Text): Option<seq<Text>> {
    var v := ParseValue(column).value;
    if !v.Arr? then Some([]) else if AllStrings(v.items) then Some(StringsOf(v.items)) else None
  }

  /** The window of a row. The owner is the id that was asked for. */
  function Loaded(r: Row, taskId: Text): Option<Window> {
    var dow, dom, sd, et := IntsIn(r.daysOfWeek), IntsIn(r.daysOfMonth), TextsIn(r.specificDates), TextsIn(r.exactTimes);
    if dow.None? || dom.None? || sd.None? || et.None? then None
    else Some(Window(r.id, taskId, r.kind, r.startDate, r.endDate, dow.value, dom.value, sd.value, et.value,
                     r.startTime, r.endTime, r.repeatInterval, r.repeatUntil))
  }

  method ReadInts(column: Text) returns (ns: Option<seq<Int32>>)
    ensures ns == IntsIn(column)
  {
    var v := Parse(column);
    if !v.Arr? { return Some([]); }
    var out: seq<Int32> := [];
    for i := 0 to |v.items|
      invariant |out| == i && forall j | 0 <= j < i :: v.items[j].Num? && out[j] == AsInt(v.items[j].d)
    {
      if !v.items[i].Num? { return None; }
      out := out + [AsInt(v.items[i].d)];
    }
    assert out == NumbersOf(v.items);
    ns := Some(out);
  }

  method ReadTexts(column: Text) returns (ts: Option<seq<Text>>)
    ensures ts == TextsIn(column)
  {
    var v := Parse(column);
    if !v.Arr? { return Some([]); }
    var out: seq<Text> := [];
    for i := 0 to |v.items|
      invariant |out| == i && forall j | 0 <= j < i :: v.items[j].Str? && out[j] == v.items[j].s
    {
      if !v.items[i].Str? { return None; }
      out := out + [v.items[i].s];
    }
    assert out == StringsOf(v.items);
    ts := Some(out);
  }

  method LoadRow(r: Row, taskId: Text) returns (w: Option<Window>)
    ensures w == Loaded(r, taskId)
  {
    hide IntsIn, TextsIn;
    var dow := ReadInts(r.daysOfWeek);
    if dow.None? { return None; }
    var dom := ReadInts(r.daysOfMonth);
    if dom.None? { return None; }
    var sd := ReadTexts(r.specificDates);
    if sd.None? { return None; }
    var et := ReadTexts(r.exactTimes);
    if et.None? { return None; }
    w := Some(Window(r.id, taskId, r.kind, r.startDate, r.endDate, dow.value, dom.value, sd.value, et.value,
                     r.startTime, r.endTime, r.repeatInterval, r.repeatUntil));
  }

  method NumberColumn(ns: seq<Int32>, fmt: Format) returns (column: Text)
    ensures Column(fmt, Numbers(ns), column)
  {
    var arr: seq<Value> := [];
    for i := 0 to |ns|
      invariant arr == Numbers(ns[..i])
    {
      arr := arr + [Num(ns[i] as real)];
    }
    assert ns[..|ns|] == ns;
    var text := Serialize(Arr(arr), fmt);
    column := CText(text);
  }

  method TextColumn(ts: seq<Text>, fmt: Format) returns (column: Text)
    ensures Column(fmt, Strings(ts), column)
  {
    var arr: seq<Value> := [];
    for i := 0 to |ts|
      invariant arr == Strings(ts[..i])
    {
      arr := arr + [Str(ts[i])];
    }
    assert ts[..|ts|] == ts;
    var text := Serialize(Arr(arr), fmt);
    column := CText(text);
  }

  method StoreRow(w: Window, fmt: Format) returns (r: Row)
    ensures StoredAs(fmt, w, r)
  {
    hide Column;
    var dow := NumberColumn(w.daysOfWeek, fmt);
    var dom := NumberColumn(w.daysOfMonth, fmt);
    var sd := TextColumn(w.specificDates, fmt);
    var et := TextColumn(w.exactTimes, fmt);
    r := Row(CText(w.id), CText(w.taskId), w.kind, COpt(w.startDate), COpt(w.endDate), dow, dom, sd, et,
             COpt(w.startTime), COpt(w.endTime), w.repeatInterval, COpt(w.repeatUntil));
  }

  // ---- stored, then loaded ----

  /** What the table keeps of a window. */
  function Kept(w: Window): Window {
    w.(id := CText(w.id), startDate := COpt(w.startDate), endDate := COpt(w.endDate),
       specificDates := NormalAll(w.specificDates), exactTimes := NormalAll(w.exactTimes),
       startTime := COpt(w.startTime), endTime := COpt(w.endTime), repeatUntil := COpt(w.repeatUntil))
  }

  predicate NulFreeOpt(t: Option<Text>) {
    t.Some? ==> NulFree(t.value)
  }

  predicate NulFreeWindow(w: Window) {
    && NulFree(w.id) && NulFreeOpt(w.startDate) && NulFreeOpt(w.endDate)
    && NulFreeOpt(w.startTime) && NulFreeOpt(w.endTime) && NulFreeOpt(w.repeatUntil)
  }

  predicate CanonicalLists(w: Window) {
    && (forall i | 0 <= i < |w.specificDates| :: Canonical(w.specificDates[i]))
    && (forall i | 0 <= i < |w.exactTimes| :: Canonical(w.exactTimes[i]))
  }

  lemma ColumnBack(fmt: Format, items: seq<Value>, column: Text)
    requires Column(fmt, items, column) && CanonicalKeys(Arr(items))
    ensures ParseValue(column).value == Reprinted(fmt, Arr(items))
  {
    hide Prints, Reprinted, CanonicalKeys;
    var text :| Prints(fmt, Arr(items), text) && column == CText(text);
    SerializedIsPrintable(fmt, Arr(items), text);
    PrintableIsNulFree(text);
    SerializedIsReprinted(fmt, Arr(items), text);
  }

  lemma NumbersBack(fmt: Format, ns: seq<Int32>, column: Text)
    requires Column(fmt, Numbers(ns), column)
    ensures IntsIn(column) == Some(ns)
  {
    ColumnBack(fmt, Numbers(ns), column);
    forall i | 0 <= i < |ns| ensures Reprinted(fmt, Numbers(ns)[i]) == Numbers(ns)[i] {
      NumberReprinted(fmt, ns[i]);
    }
    ListReprinted(fmt, Numbers(ns), Numbers(ns));
    hide AsInt, Column, Reprinted;
    forall i | 0 <= i < |ns| ensures AsInt(Numbers(ns)[i].d) == ns[i] { AsIntExact(ns[i]); }
    assert NumbersOf(Numbers(ns)) == ns;
  }

  lemma StringsBack(fmt: Format, ts: seq<Text>, column: Text)
    requires Column(fmt, Strings(ts), column)
    ensures TextsIn(column) == Some(NormalAll(ts))
  {
    hide Normal;
    ColumnBack(fmt, Strings(ts), column);
    ListReprinted(fmt, Strings(ts), Strings(NormalAll(ts)));
    hide Column, Reprinted;
    assert StringsOf(Strings(NormalAll(ts))) == NormalAll(ts);
  }

  lemma AllNormal(ts: seq<Text>)
    ensures NormalAll(ts) == ts <==> forall i | 0 <= i < |ts| :: Canonical(ts[i])
  {
    hide Normal, Canonical;
    forall i | 0 <= i < |ts| ensures Normal(ts[i]) == ts[i] <==> Canonical(ts[i]) { NormalFixpoints(ts[i]); }
    if NormalAll(ts) == ts {
      forall i | 0 <= i < |ts| ensures Canonical(ts[i]) { assert NormalAll(ts)[i] == ts[i]; }
    }
  }

  lemma COptIs(t: Option<Text>)
    ensures COpt(t) == t <==> NulFreeOpt(t)
  {
    if t.Some? { CTextIs(t.value); }
  }

  /** A window stored and loaded again never fails to load. It is the same window exactly when
      its single texts hold no NUL byte and its lists hold canonical texts. */
  lemma StoreThenLoad(fmt: Format, w: Window, r: Row)
    requires StoredAs(fmt, w, r)
    ensures Loaded(r, w.taskId) == Some(Kept(w))
    ensures Loaded(r, w.taskId) == Some(w) <==> NulFreeWindow(w) && CanonicalLists(w)
  {
    NumbersBack(fmt, w.daysOfWeek, r.daysOfWeek);
    NumbersBack(fmt, w.daysOfMonth, r.daysOfMonth);
    StringsBack(fmt, w.specificDates, r.specificDates);
    StringsBack(fmt, w.exactTimes, r.exactTimes);
    KeptIs(w);
    hide IntsIn, TextsIn, Column, NormalAll, COpt, CText, NulFreeWindow, CanonicalLists;
  }

  lemma KeptIs(w: Window)
    ensures Kept(w) == w <==> NulFreeWindow(w) && CanonicalLists(w)
  {
    AllNormal(w.specificDates);
    AllNormal(w.exactTimes);
    CTextIs(w.id);
    COptIs(w.startDate);
    COptIs(w.endDate);
    COptIs(w.startTime);
    COptIs(w.endTime);
    COptIs(w.repeatUntil);
    hide NormalAll, COpt, CText, NulFree, NulFreeOpt, Canonical;
  }
}
