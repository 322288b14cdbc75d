/** Time windows as JSON text: the printer that clients read from, and the reader of what
    clients send. */
module WindowJson {
  import opened Bytes
  import opened Common
  import opened JsonString
  import opened JsonNumber
  import opened JsonParser
  import opened JsonPrinter
  import opened JsonSerializer
  import opened JsonValues
  import opened TimeWindows

  /** The member names of a window object. */
  datatype Key =
    | Id | TaskId | Type | StartDate | EndDate | StartTime | EndTime | RepeatIntervalMinutes | RepeatUntil
    | DaysOfWeek | DaysOfMonth | SpecificDates | ExactTimes

  function Name(k: Key): Text {
    Ascii(match k
      case Id => "Id"
      case TaskId => "TaskId"
      case Type => "Type"
      case StartDate => "StartDate"
      case EndDate => "EndDate"
      case StartTime => "StartTime"
      case EndTime => "EndTime"
      case RepeatIntervalMinutes => "RepeatIntervalMinutes"
      case RepeatUntil => "RepeatUntil"
      case DaysOfWeek => "DaysOfWeek"
      case DaysOfMonth => "DaysOfMonth"
      case SpecificDates => "SpecificDates"
      case ExactTimes => "ExactTimes")
  }

  /** The order in which the members are filled in. */
  function Index(k: Key): nat {
    match k
    case Id => 0
    case TaskId => 1
    case Type => 2
    case StartDate => 3
    case EndDate => 4
    case StartTime => 5
    case EndTime => 6
    case RepeatIntervalMinutes => 7
    case RepeatUntil => 8
    case DaysOfWeek => 9
    case DaysOfMonth => 10
    case SpecificDates => 11
    case ExactTimes => 12
  }

  lemma NamesDiffer(a: Key, b: Key)
    requires Name(a) == Name(b)
    ensures a == b
  {
    assert |Name(a)| == |Name(b)|;
    if |Name(a)| > 5 {
      assert Name(a)[0] == Name(b)[0];
      assert Name(a)[4] == Name(b)[4];
      assert Name(a)[5] == Name(b)[5];
    } else {
      assert Name(a)[0] == Name(b)[0];
    }
  }

  function DayName(d: nat): Text
    requires d < 7
  {
    Ascii(["Sunday", "Monday", "Tuesday", "Wednesday", "Thursday", "Friday", "Saturday"][d])
  }

  lemma DayNamesDiffer(a: nat, b: nat)
    requires a < 7 && b < 7 && DayName(a) == DayName(b)
    ensures a == b
  {
    assert |DayName(a)| == |DayName(b)|;
    assert DayName(a)[0] == DayName(b)[0] && DayName(a)[1] == DayName(b)[1];
  }

  const EXACT_TIMES: Text := Ascii("ExactTimes")
  const INTERVAL: Text := Ascii("Interval")

  // ---- printing ----

  function OptText(t: Option<Text>): Value {
    if t.Some? then Str(t.value) else Null
  }

  function OptNumber(n: Option<Int32>): Value {
    if n.Some? then Num(n.value as real) else Null
  }

  function DayValue(d: Int32): Value {
    if 0 <= d < 7 then Str(DayName(d)) else Num(d as real)
  }

  function Days(ds: seq<Int32>): seq<Value> {
    seq(|ds|, i requires 0 <= i < |ds| => DayValue(ds[i]))
  }

  function Numbers(ns: seq<Int32>): seq<Value> {
    seq(|ns|, i requires 0 <= i < |ns| => Num(ns[i] as real))
  }

  function Strings(ts: seq<Text>): seq<Value> {
    seq(|ts|, i requires 0 <= i < |ts| => Str(ts[i]))
  }

  function Member(w: Window, k: Key): Value {
    match k
    case Id => Str(w.id)
    case TaskId => Str(w.taskId)
    case Type => Str(if w.kind == 0 then EXACT_TIMES else INTERVAL)
    case StartDate => OptText(w.startDate)
    case EndDate => OptText(w.endDate)
    case StartTime => OptText(w.startTime)
    case EndTime => OptText(w.endTime)
    case RepeatIntervalMinutes => OptNumber(w.repeatInterval)
    case RepeatUntil => OptText(w.repeatUntil)
    case DaysOfWeek => Arr(Days(w.daysOfWeek))
    case DaysOfMonth => Arr(Numbers(w.daysOfMonth))
    case SpecificDates => Arr(Strings(w.specificDates))
    case ExactTimes => Arr(Strings(w.exactTimes))
  }

  /** The members under some of the names. */
  function MembersOf(w: Window, ks: set<Key>): map<Text, Value> {
    assert forall a, b | a in ks && b in ks && Name(a) == Name(b) :: a == b by {
      forall a, b | a in ks && b in ks && Name(a) == Name(b) ensures a == b { NamesDiffer(a, b); }
    }
    map k | k in ks :: Name(k) := Member(w, k)
  }

  function FirstKeys(n: nat): set<Key> {
    set k: Key | Index(k) < n
  }

  /** The first `n` members. */
  function Members(w: Window, n: nat): map<Text, Value> {
    MembersOf(w, FirstKeys(n))
  }

  function WindowValue(w: Window): Value {
    Obj(Members(w, 13))
  }

  lemma OneMoreMember(w: Window, ks: set<Key>, k: Key)
    requires k !in ks
    ensures MembersOf(w, ks + {k}) == MembersOf(w, ks)[Name(k) := Member(w, k)]
  {
    hide Name, Member;
    var a, b := MembersOf(w, ks + {k}), MembersOf(w, ks)[Name(k) := Member(w, k)];
    forall x | x in ks && Name(x) == Name(k) ensures false { NamesDiffer(x, k); }
    forall n | n in a ensures n in b && a[n] == b[n] {
      var x :| x in ks + {k} && n == Name(x);
    }
    forall n | n in b ensures n in a {
      assert n == Name(k) || n in MembersOf(w, ks);
      assert k in ks + {k};
    }
  }

  lemma SameIndex(a: Key, b: Key)
    requires Index(a) == Index(b)
    ensures a == b
  {}

  lemma NextKey(k: Key)
    ensures k !in FirstKeys(Index(k)) && FirstKeys(Index(k) + 1) == FirstKeys(Index(k)) + {k}
  {
    hide Index;
    forall x: Key | Index(x) == Index(k) ensures x == k { SameIndex(x, k); }
  }

  lemma NoMembers(w: Window)
    ensures Members(w, 0) == map[]
  {
    assert FirstKeys(0) == {};
  }

  /** obj[name] = value, as the member number `n`. */
  method Put(obj: map<Text, Value>, n: nat, k: Key, v: Value, ghost w: Window) returns (grown: map<Text, Value>)
    requires obj == Members(w, n) && n == Index(k) && v == Member(w, k)
    ensures grown == Members(w, n + 1)
  {
    grown := obj[Name(k) := v];
    NextKey(k);
    OneMoreMember(w, FirstKeys(n), k);
  }

  method WindowToJson(w: Window, fmt: Format) returns (out: Text)
    ensures Prints(fmt, WindowValue(w), out)
  {
    hide Name, Member, Members, DayValue, DayName, Prints;
    var dow: seq<Value>, dom: seq<Value>, dates: seq<Value>, times: seq<Value> := [], [], [], [];
    for i := 0 to |w.daysOfWeek|
      invariant dow == Days(w.daysOfWeek[..i])
    {
      dow := dow + [DayValue(w.daysOfWeek[i])];
    }
    for i := 0 to |w.daysOfMonth|
      invariant dom == Numbers(w.daysOfMonth[..i])
    {
      dom := dom + [Num(w.daysOfMonth[i] as real)];
    }
    for i := 0 to |w.specificDates|
      invariant dates == Strings(w.specificDates[..i])
    {
      dates := dates + [Str(w.specificDates[i])];
    }
    for i := 0 to |w.exactTimes|
      invariant times == Strings(w.exactTimes[..i])
    {
      times := times + [Str(w.exactTimes[i])];
    }
    assert w.daysOfWeek[..|w.daysOfWeek|] == w.daysOfWeek && w.daysOfMonth[..|w.daysOfMonth|] == w.daysOfMonth;
    assert w.specificDates[..|w.specificDates|] == w.specificDates && w.exactTimes[..|w.exactTimes|] == w.exactTimes;
    var obj := PutTexts(w);
    obj := PutLists(w, obj, dow, dom, dates, times);
    out := Serialize(Obj(obj), fmt);
  }

  method PutTexts(w: Window) returns (obj: map<Text, Value>)
    ensures obj == Members(w, 7)
  {
    hide Name, Members, MembersOf, FirstKeys;
    obj := map[];
    NoMembers(w);
    obj := Put(obj, 0, Id, Str(w.id), w);
    obj := Put(obj, 1, TaskId, Str(w.taskId), w);
    obj := Put(obj, 2, Type, Str(if w.kind == 0 then EXACT_TIMES else INTERVAL), w);
    obj := Put(obj, 3, StartDate, OptText(w.startDate), w);
    obj := Put(obj, 4, EndDate, OptText(w.endDate), w);
    obj := Put(obj, 5, StartTime, OptText(w.startTime), w);
    obj := Put(obj, 6, EndTime, OptText(w.endTime), w);
  }

  method PutLists(w: Window, start: map<Text, Value>, dow: seq<Value>, dom: seq<Value>, dates: seq<Value>,
                  times: seq<Value>)
    returns (obj: map<Text, Value>)
    requires start == Members(w, 7)
    requires dow == Days(w.daysOfWeek) && dom == Numbers(w.daysOfMonth)
    requires dates == Strings(w.specificDates) && times == Strings(w.exactTimes)
    ensures obj == Members(w, 13)
  {
    hide Name, Members, Days, Numbers, Strings;
    obj := Put(start, 7, RepeatIntervalMinutes, OptNumber(w.repeatInterval), w);
    obj := Put(obj, 8, RepeatUntil, OptText(w.repeatUntil), w);
    obj := Put(obj, 9, DaysOfWeek, Arr(dow), w);
    obj := Put(obj, 10, DaysOfMonth, Arr(dom), w);
    obj := Put(obj, 11, SpecificDates, Arr(dates), w);
    obj := Put(obj, 12, ExactTimes, Arr(times), w);
  }

  // ---- reading ----

  /** Conversion of a double to int: toward zero. What is out of range becomes the smallest
      integer. */
  function AsInt(d: real): Int32 {
    var n := if d >= 0.0 then d.Floor else -(-d).Floor;
    if -0x8000_0000 <= n < 0x8000_0000 then n else -0x8000_0000
  }

  function TextOf(v: Value): Option<Text> {
    if v.Str? then Some(v.s) else None
  }

  function NumberIn(v: Value): Option<Int32> {
    if v.Num? then Some(AsInt(v.d)) else None
  }

  /** Numbers are taken as they are, strings only if they are the name of a day. */
  function DayOf(v: Value): Option<Int32> {
    match v
    case Num(d) => Some(AsInt(d))
    case Str(s) => DayNamed(s, 0)
    case _ => None
  }

  function DayNamed(s: Text, from: nat): Option<Int32>
    decreases 7 - from
  {
    if from >= 7 then None else if s == DayName(from) then Some(from) else DayNamed(s, from + 1)
  }

  /** The items for which `f` has a result, in order. */
  function Collect<T>(items: seq<Value>, f: Value -> Option<T>): seq<T> {
    if items == [] then []
    else
      var last := f(items[|items| - 1]);
      Collect(items[..|items| - 1], f) + if last.Some? then [last.value] else []
  }

  lemma CollectNext<T>(items: seq<Value>, f: Value -> Option<T>, i: nat)
    requires i < |items|
    ensures Collect(items[..i + 1], f) == Collect(items[..i], f) + if f(items[i]).Some? then [f(items[i]).value] else []
  {
    assert items[..i + 1][..i] == items[..i];
  }

  lemma {:induction false} CollectAll<T>(items: seq<Value>, f: Value -> Option<T>, xs: seq<T>)
    requires |xs| == |items| && forall i | 0 <= i < |items| :: f(items[i]) == Some(xs[i])
    ensures Collect(items, f) == xs
  {
    if items != [] {
      var n := |items| - 1;
      CollectAll(items[..n], f, xs[..n]);
      assert xs == xs[..n] + [xs[n]];
    }
  }

  function TextAt(e: Value, k: Key): Option<Text> {
    var v := e.Get(Name(k));
    if v.Some? then TextOf(v.value) else None
  }

  /** Missing, null and empty all read as absent. */
  function NonEmptyAt(e: Value, k: Key): Option<Text> {
    var t := TextAt(e, k);
    if t.Some? && t.value != [] then t else None
  }

  function NumberAt(e: Value, k: Key): Option<Int32> {
    var v := e.Get(Name(k));
    if v.Some? then NumberIn(v.value) else None
  }

  function ItemsAt(e: Value, k: Key): seq<Value> {
    var v := e.Get(Name(k));
    if v.Some? && v.value.Arr? then v.value.items else []
  }

  function OrEmpty(t: Option<Text>): Text {
    if t.Some? then t.value else []
  }

  function KindAt(e: Value): Int32 {
    var v := e.Get(Name(Type));
    if v.None? then 0
    else match v.value
      case Str(s) => if s == INTERVAL then 1 else 0
      case Num(d) => AsInt(d)
      case _ => 0
  }

  function WindowFrom(e: Value): Window {
    Window(
      OrEmpty(TextAt(e, Id)), [], KindAt(e), NonEmptyAt(e, StartDate), NonEmptyAt(e, EndDate),
      Collect(ItemsAt(e, DaysOfWeek), DayOf), Collect(ItemsAt(e, DaysOfMonth), NumberIn),
      Collect(ItemsAt(e, SpecificDates), TextOf), Collect(ItemsAt(e, ExactTimes), TextOf),
      NonEmptyAt(e, StartTime), NonEmptyAt(e, EndTime), NumberAt(e, RepeatIntervalMinutes), NonEmptyAt(e, RepeatUntil))
  }

  function WindowOf(e: Value): Option<Window> {
    if e.Obj? then Some(WindowFrom(e)) else None
  }

  /** The windows in a JSON array; elements that are not objects are passed over. */
  function WindowsIn(v: Value): seq<Window> {
    if v.Arr? then Collect(v.items, WindowOf) else []
  }

  method CollectItems<T>(items: seq<Value>, f: Value -> Option<T>) returns (xs: seq<T>)
    ensures xs == Collect(items, f)
  {
    xs := [];
    for i := 0 to |items|
      invariant xs == Collect(items[..i], f)
    {
      CollectNext(items, f, i);
      var x := f(items[i]);
      if x.Some? { xs := xs + [x.value]; }
    }
    assert items[..|items|] == items;
  }

  /** The loop over the names of the days, up to the first that fits. */
  method LookUpDay(s: Text) returns (d: Option<Int32>)
    ensures d == DayNamed(s, 0)
  {
    for m := 0 to 7
      invariant DayNamed(s, 0) == DayNamed(s, m)
    {
      if s == DayName(m) { return Some(m); }
    }
    d := None;
  }

  method ReadDays(items: seq<Value>) returns (days: seq<Int32>)
    ensures days == Collect(items, DayOf)
  {
    hide DayName;
    days := [];
    for i := 0 to |items|
      invariant days == Collect(items[..i], DayOf)
    {
      CollectNext(items, DayOf, i);
      if items[i].Num? {
        days := days + [AsInt(items[i].d)];
      } else if items[i].Str? {
        var d := LookUpDay(items[i].s);
        if d.Some? { days := days + [d.value]; }
      }
    }
    assert items[..|items|] == items;
  }

  method ReadWindow(e: Value) returns (w: Window)
    ensures w == WindowFrom(e)
  {
    var dow := ReadDays(ItemsAt(e, DaysOfWeek));
    var dom := CollectItems(ItemsAt(e, DaysOfMonth), NumberIn);
    var dates := CollectItems(ItemsAt(e, SpecificDates), TextOf);
    var times := CollectItems(ItemsAt(e, ExactTimes), TextOf);
    w := Window(
      OrEmpty(TextAt(e, Id)), [], KindAt(e), NonEmptyAt(e, StartDate), NonEmptyAt(e, EndDate), dow, dom, dates, times,
      NonEmptyAt(e, StartTime), NonEmptyAt(e, EndTime), NumberAt(e, RepeatIntervalMinutes), NonEmptyAt(e, RepeatUntil));
  }

  method WindowsFromJson(text: Text) returns (ws: seq<Window>)
    ensures ws == WindowsIn(ParseValue(text).value)
  {
    hide WindowFrom;
    var v := Parse(text);
    ws := [];
    if !v.Arr? { return; }
    for i := 0 to |v.items|
      invariant ws == Collect(v.items[..i], WindowOf)
    {
      CollectNext(v.items, WindowOf, i);
      if v.items[i].Obj? {
        var w := ReadWindow(v.items[i]);
        ws := ws + [w];
      }
    }
    assert v.items[..|v.items|] == v.items;
  }

  // ---- what is read back from a printed window ----

  function NonEmpty(t: Option<Text>): Option<Text> {
    if t.Some? && t.value != [] then t else None
  }

  function NormalOpt(t: Option<Text>): Option<Text> {
    if t.Some? then Some(Normal(t.value)) else None
  }

  function NormalAll(ts: seq<Text>): seq<Text> {
    seq(|ts|, i requires 0 <= i < |ts| => Normal(ts[i]))
  }

  /** All texts in normal form. */
  function NormalWindow(w: Window): Window {
    w.(id := Normal(w.id), taskId := Normal(w.taskId), startDate := NormalOpt(w.startDate), endDate := NormalOpt(w.endDate),
       specificDates := NormalAll(w.specificDates), exactTimes := NormalAll(w.exactTimes),
       startTime := NormalOpt(w.startTime), endTime := NormalOpt(w.endTime), repeatUntil := NormalOpt(w.repeatUntil))
  }

  /** A window as a client sees it: no owner, one of two kinds, no empty optional text. */
  function Shown(w: Window): Window {
    w.(taskId := [], kind := if w.kind == 0 then 0 else 1, startDate := NonEmpty(w.startDate), endDate := NonEmpty(w.endDate),
       startTime := NonEmpty(w.startTime), endTime := NonEmpty(w.endTime), repeatUntil := NonEmpty(w.repeatUntil))
  }

  lemma AsIntExact(n: Int32)
    ensures AsInt(n as real) == n
  {
    var m: int := n;
    assert -(m as real) == (-m) as real;
  }

  lemma {:induction false} DayNamedBack(d: nat, from: nat)
    requires from <= d < 7
    ensures DayNamed(DayName(d), from) == Some(d)
    decreases 7 - from
  {
    hide DayName;
    if from < d {
      if DayName(d) == DayName(from) { DayNamesDiffer(d, from); }
      DayNamedBack(d, from + 1);
    }
  }

  lemma DayBack(d: Int32)
    ensures DayOf(DayValue(d)) == Some(d)
  {
    if 0 <= d < 7 { DayNamedBack(d, 0); } else { AsIntExact(d); }
  }

  lemma MemberBack(w: Window, k: Key)
    ensures WindowValue(w).Get(Name(k)) == Some(Member(w, k))
  {
    assert Index(k) < 13 && k in FirstKeys(13);
    hide Name, Member, Index, FirstKeys;
    forall x: Key | Name(x) == Name(k) ensures x == k { NamesDiffer(x, k); }
  }

  lemma ListsBack(w: Window)
    ensures Collect(Days(w.daysOfWeek), DayOf) == w.daysOfWeek
    ensures Collect(Numbers(w.daysOfMonth), NumberIn) == w.daysOfMonth
    ensures Collect(Strings(w.specificDates), TextOf) == w.specificDates
    ensures Collect(Strings(w.exactTimes), TextOf) == w.exactTimes
  {
    hide DayValue, DayOf, AsInt;
    forall i | 0 <= i < |w.daysOfWeek| ensures DayOf(Days(w.daysOfWeek)[i]) == Some(w.daysOfWeek[i]) {
      DayBack(w.daysOfWeek[i]);
    }
    CollectAll(Days(w.daysOfWeek), DayOf, w.daysOfWeek);
    forall i | 0 <= i < |w.daysOfMonth| ensures NumberIn(Numbers(w.daysOfMonth)[i]) == Some(w.daysOfMonth[i]) {
      AsIntExact(w.daysOfMonth[i]);
    }
    CollectAll(Numbers(w.daysOfMonth), NumberIn, w.daysOfMonth);
    CollectAll(Strings(w.specificDates), TextOf, w.specificDates);
    CollectAll(Strings(w.exactTimes), TextOf, w.exactTimes);
  }

  lemma KindNamesDiffer()
    ensures EXACT_TIMES != INTERVAL
  {
    assert |EXACT_TIMES| != |INTERVAL|;
  }

  lemma OptBack(w: Window, k: Key, t: Option<Text>)
    requires Member(w, k) == OptText(t)
    ensures NonEmptyAt(WindowValue(w), k) == NonEmpty(t)
  {
    hide Name, WindowValue, Member;
    MemberBack(w, k);
  }

  lemma OthersBack(w: Window)
    ensures var e := WindowValue(w);
            && TextAt(e, Id) == Some(w.id) && NumberAt(e, RepeatIntervalMinutes) == w.repeatInterval
            && KindAt(e) == (if w.kind == 0 then 0 else 1)
            && ItemsAt(e, DaysOfWeek) == Days(w.daysOfWeek) && ItemsAt(e, DaysOfMonth) == Numbers(w.daysOfMonth)
            && ItemsAt(e, SpecificDates) == Strings(w.specificDates) && ItemsAt(e, ExactTimes) == Strings(w.exactTimes)
  {
    hide Name, WindowValue, AsInt, Days, Numbers, Strings;
    forall k: Key ensures WindowValue(w).Get(Name(k)) == Some(Member(w, k)) { MemberBack(w, k); }
    KindNamesDiffer();
    if w.repeatInterval.Some? { AsIntExact(w.repeatInterval.value); }
  }

  /** Reading the object of a window gives the window as a client sees it. */
  lemma WindowBack(w: Window)
    ensures WindowFrom(WindowValue(w)) == Shown(w)
  {
    hide Name, WindowValue, Collect, Days, Numbers, Strings, TextAt, KindAt, NonEmptyAt, NumberAt, ItemsAt;
    ListsBack(w);
    OthersBack(w);
    OptBack(w, StartDate, w.startDate);
    OptBack(w, EndDate, w.endDate);
    OptBack(w, StartTime, w.startTime);
    OptBack(w, EndTime, w.endTime);
    OptBack(w, RepeatUntil, w.repeatUntil);
  }

  // ---- through the serializer and the parser ----

  lemma AsciiStays(s: Text)
    requires forall i | 0 <= i < |s| :: s[i] < 0x80
    ensures Canonical(s) && Normal(s) == s
  {
    AsciiIsCanonical(s);
    NormalFixpoints(s);
  }

  lemma NumberReprinted(fmt: Format, n: Int32)
    ensures Reprinted(fmt, Num(n as real)) == Num(n as real)
  {
    assert (n as real).Floor == n;
    IntLiteralValue(n);
  }

  lemma DayReprinted(fmt: Format, d: Int32)
    ensures Reprinted(fmt, DayValue(d)) == DayValue(d)
  {
    if 0 <= d < 7 { AsciiStays(DayName(d)); } else { NumberReprinted(fmt, d); }
  }

  lemma ListsReprinted(fmt: Format, w: Window)
    ensures Reprinted(fmt, Arr(Days(w.daysOfWeek))) == Arr(Days(w.daysOfWeek))
    ensures Reprinted(fmt, Arr(Numbers(w.daysOfMonth))) == Arr(Numbers(w.daysOfMonth))
    ensures Reprinted(fmt, Arr(Strings(w.specificDates))) == Arr(Strings(NormalAll(w.specificDates)))
    ensures Reprinted(fmt, Arr(Strings(w.exactTimes))) == Arr(Strings(NormalAll(w.exactTimes)))
  {
    hide DayValue, Normal, NumberOf;
    forall d ensures Reprinted(fmt, DayValue(d)) == DayValue(d) { DayReprinted(fmt, d); }
    forall i | 0 <= i < |w.daysOfMonth|
      ensures Reprinted(fmt, Numbers(w.daysOfMonth)[i]) == Numbers(w.daysOfMonth)[i]
    {
      NumberReprinted(fmt, w.daysOfMonth[i]);
    }
    assert forall t :: Reprinted(fmt, Str(t)) == Str(Normal(t));
    ListReprinted(fmt, Days(w.daysOfWeek), Days(w.daysOfWeek));
    ListReprinted(fmt, Numbers(w.daysOfMonth), Numbers(w.daysOfMonth));
    ListReprinted(fmt, Strings(w.specificDates), Strings(NormalAll(w.specificDates)));
    ListReprinted(fmt, Strings(w.exactTimes), Strings(NormalAll(w.exactTimes)));
  }

  lemma ListReprinted(fmt: Format, a: seq<Value>, b: seq<Value>)
    requires |a| == |b| && forall i | 0 <= i < |a| :: Reprinted(fmt, a[i]) == b[i]
    ensures Reprinted(fmt, Arr(a)) == Arr(b)
  {
    assert ReprintedList(fmt, a) == b;
  }

  lemma OptReprinted(fmt: Format, t: Option<Text>)
    ensures Reprinted(fmt, OptText(t)) == OptText(NormalOpt(t)) && CanonicalKeys(OptText(t))
  {}

  lemma MemberReprinted(fmt: Format, w: Window, k: Key)
    ensures Reprinted(fmt, Member(w, k)) == Member(NormalWindow(w), k)
    ensures CanonicalKeys(Member(w, k))
  {
    hide Normal, NumberOf, Strings, Days, Numbers, NormalAll, NormalOpt, OptText, LiteralValue;
    match k
    case Type =>
      AsciiStays(EXACT_TIMES);
      AsciiStays(INTERVAL);
    case RepeatIntervalMinutes => if w.repeatInterval.Some? { NumberReprinted(fmt, w.repeatInterval.value); }
    case StartDate => OptReprinted(fmt, w.startDate);
    case EndDate => OptReprinted(fmt, w.endDate);
    case StartTime => OptReprinted(fmt, w.startTime);
    case EndTime => OptReprinted(fmt, w.endTime);
    case RepeatUntil => OptReprinted(fmt, w.repeatUntil);
    case Id =>
    case TaskId =>
    case _ =>
      hide Reprinted, CanonicalKeys;
      ListsReprinted(fmt, w);
      FlatLists(w);
  }

  lemma FlatLists(w: Window)
    ensures CanonicalKeys(Arr(Days(w.daysOfWeek))) && CanonicalKeys(Arr(Numbers(w.daysOfMonth)))
    ensures CanonicalKeys(Arr(Strings(w.specificDates))) && CanonicalKeys(Arr(Strings(w.exactTimes)))
  {}

  lemma WindowReprinted(fmt: Format, w: Window)
    ensures CanonicalKeys(WindowValue(w))
    ensures Reprinted(fmt, WindowValue(w)) == WindowValue(NormalWindow(w))
  {
    hide Name, Member, NormalWindow, Reprinted, CanonicalKeys, FirstKeys;
    forall k: Key ensures Canonical(Name(k)) { AsciiName(k); }
    forall k: Key
      ensures Reprinted(fmt, Member(w, k)) == Member(NormalWindow(w), k) && CanonicalKeys(Member(w, k))
    {
      MemberReprinted(fmt, w, k);
    }
    MapReprinted(fmt, Members(w, 13), Members(NormalWindow(w), 13));
  }

  lemma AsciiName(k: Key)
    ensures Canonical(Name(k))
  {
    AsciiIsCanonical(Name(k));
  }

  lemma MapReprinted(fmt: Format, a: map<Text, Value>, b: map<Text, Value>)
    requires a.Keys == b.Keys && forall n | n in a :: Reprinted(fmt, a[n]) == b[n] && Canonical(n) && CanonicalKeys(a[n])
    ensures Reprinted(fmt, Obj(a)) == Obj(b) && CanonicalKeys(Obj(a))
  {
    hide Canonical;
    assert ReprintedMap(fmt, a) == b;
  }

  // ---- the list that clients read ----

  /** Each window printed, parsed again, and the array of the results printed. */
  ghost predicate ListPrinted(fmt: Format, ws: seq<Window>, out: Text) {
    Prints(fmt, Arr(Relisted(fmt, ws)), out)
  }

  /** The values of the printed windows, whatever order their members were printed in. */
  function Relisted(fmt: Format, ws: seq<Window>): seq<Value> {
    seq(|ws|, i requires 0 <= i < |ws| => WindowValue(NormalWindow(ws[i])))
  }

  method WindowListToJson(ws: seq<Window>, fmt: Format) returns (out: Text)
    ensures ListPrinted(fmt, ws, out)
  {
    hide WindowValue, NormalWindow, Prints;
    var arr: seq<Value> := [];
    for i := 0 to |ws|
      invariant arr == Relisted(fmt, ws[..i])
    {
      var text := WindowToJson(ws[i], fmt);
      var v := Parse(text);
      WindowReprinted(fmt, ws[i]);
      SerializedIsReprinted(fmt, WindowValue(ws[i]), text);
      arr := arr + [v];
    }
    assert ws[..|ws|] == ws;
    out := Serialize(Arr(arr), fmt);
  }

  lemma NormalTwice(w: Window)
    ensures NormalWindow(NormalWindow(w)) == NormalWindow(w)
  {
    hide Normal;
    forall t ensures Normal(Normal(t)) == Normal(t) { NormalFixpoints(t); }
  }

  function ShownAll(ws: seq<Window>): seq<Window> {
    seq(|ws|, i requires 0 <= i < |ws| => Shown(NormalWindow(ws[i])))
  }

  /** What a client makes of the list it is sent: every window, in order, with its texts in
      normal form. */
  lemma ListBack(fmt: Format, ws: seq<Window>, out: Text)
    requires ListPrinted(fmt, ws, out)
    ensures WindowsIn(ParseValue(out).value) == ShownAll(ws)
  {
    hide WindowValue, NormalWindow, Shown, WindowFrom, Prints, Reprinted;
    var items := Relisted(fmt, ws);
    forall i | 0 <= i < |ws| ensures CanonicalKeys(items[i]) && Reprinted(fmt, items[i]) == items[i] {
      WindowReprinted(fmt, NormalWindow(ws[i]));
      NormalTwice(ws[i]);
    }
    ListReprinted(fmt, items, items);
    SerializedIsReprinted(fmt, Arr(items), out);
    forall i | 0 <= i < |ws| ensures WindowOf(items[i]) == Some(ShownAll(ws)[i]) {
      WindowIsObject(NormalWindow(ws[i]));
      WindowBack(NormalWindow(ws[i]));
    }
    CollectAll(items, WindowOf, ShownAll(ws));
  }

  lemma WindowIsObject(w: Window)
    ensures WindowValue(w).Obj?
  {}
}
