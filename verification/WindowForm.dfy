/** The objects in which windows and tasks travel, by the literal names of their members. */
module WindowForm {
  import opened Bytes
  import opened Common
  import opened JsonParser
  import opened JsonPrinter
  import opened JsonSerializer
  import opened TimeWindows
  import opened WindowJson
  import opened WindowRequests

  predicate Has(v: Value, name: string, member: Value) {
    v.Get(Ascii(name)) == Some(member)
  }

  predicate HasText(v: Value, name: string, t: Text) {
    Has(v, name, Str(t))
  }

  /** The week as clients write it. */
  function Week(): seq<Value> {
    [Str(Ascii("Sunday")), Str(Ascii("Monday")), Str(Ascii("Tuesday")), Str(Ascii("Wednesday")), Str(Ascii("Thursday")),
     Str(Ascii("Friday")), Str(Ascii("Saturday"))]
  }

  lemma WeekIsNamed(d: nat)
    requires d < 7
    ensures Week()[d] == Str(DayName(d)) && DayOf(Week()[d]) == Some(d)
  {
    DayNamedBack(d, 0);
  }

  lemma WeekRead()
    ensures Collect(Week(), DayOf) == [0, 1, 2, 3, 4, 5, 6]
  {
    var days: seq<Int32> := [0, 1, 2, 3, 4, 5, 6];
    forall d: nat | d < 7 ensures DayOf(Week()[d]) == Some(days[d]) { WeekIsNamed(d); }
    hide DayOf, Week;
    assert |Week()| == 7 by { WeekHasSeven(); }
    CollectAll(Week(), DayOf, days);
  }

  lemma WeekHasSeven()
    ensures |Week()| == 7
  {}

  lemma NamesAre()
    ensures Name(Id) == Ascii("Id") && Name(TaskId) == Ascii("TaskId") && Name(Type) == Ascii("Type")
    ensures Name(StartDate) == Ascii("StartDate") && Name(EndDate) == Ascii("EndDate")
    ensures Name(StartTime) == Ascii("StartTime") && Name(EndTime) == Ascii("EndTime")
    ensures Name(RepeatIntervalMinutes) == Ascii("RepeatIntervalMinutes") && Name(RepeatUntil) == Ascii("RepeatUntil")
    ensures Name(DaysOfWeek) == Ascii("DaysOfWeek") && Name(DaysOfMonth) == Ascii("DaysOfMonth")
    ensures Name(SpecificDates) == Ascii("SpecificDates") && Name(ExactTimes) == Ascii("ExactTimes")
  {}

  /** What a window object with all its members denotes. */
  lemma ReadByName(e: Value, id: Text, interval: bool, from: Text, to: Text, start: Text, end: Text, minutes: Int32, until: Text,
                   doms: seq<Int32>, dates: seq<Text>, times: seq<Text>)
    requires from != [] && to != [] && start != [] && end != [] && until != []
    requires HasText(e, "Id", id) && HasText(e, "Type", Ascii(if interval then "Interval" else "ExactTimes"))
    requires HasText(e, "StartDate", from) && HasText(e, "EndDate", to)
    requires HasText(e, "StartTime", start) && HasText(e, "EndTime", end)
    requires Has(e, "RepeatIntervalMinutes", Num(minutes as real)) && HasText(e, "RepeatUntil", until)
    requires Has(e, "DaysOfWeek", Arr(Week())) && Has(e, "DaysOfMonth", Arr(Numbers(doms)))
    requires Has(e, "SpecificDates", Arr(Strings(dates))) && Has(e, "ExactTimes", Arr(Strings(times)))
    ensures WindowFrom(e) == Window(id, [], if interval then 1 else 0, Some(from), Some(to), [0, 1, 2, 3, 4, 5, 6], doms,
                                    dates, times, Some(start), Some(end), Some(minutes), Some(until))
  {
    NamesAre();
    WeekRead();
    KindsRead();
    ListsRead(doms, dates, times);
    AsIntExact(minutes);
    hide Week, Numbers, Strings, AsInt, DayOf, Name, Ascii;
  }

  lemma KindsRead()
    ensures Ascii("Interval") == INTERVAL && Ascii("ExactTimes") != INTERVAL
  {
    assert |Ascii("ExactTimes")| == 10 && |INTERVAL| == 8;
  }

  lemma ListsRead(doms: seq<Int32>, dates: seq<Text>, times: seq<Text>)
    ensures Collect(Numbers(doms), NumberIn) == doms
    ensures Collect(Strings(dates), TextOf) == dates && Collect(Strings(times), TextOf) == times
  {
    forall i | 0 <= i < |doms| ensures NumberIn(Numbers(doms)[i]) == Some(doms[i]) { AsIntExact(doms[i]); }
    hide AsInt;
    CollectAll(Numbers(doms), NumberIn, doms);
    CollectAll(Strings(dates), TextOf, dates);
    CollectAll(Strings(times), TextOf, times);
  }

  /** What an object without members denotes. */
  lemma ReadWithoutMembers()
    ensures WindowFrom(Obj(map[])) == Window([], [], 0, None, None, [], [], [], [], None, None, None, None)
  {}

  /** Numbers count as kinds and as days as they are, rounded toward zero. */
  lemma RoundedTowardZero(d: real)
    ensures d >= 0.0 && d < 2147483648.0 ==> AsInt(d) as real <= d < AsInt(d) as real + 1.0
    ensures d < 0.0 && d > -2147483649.0 ==> AsInt(d) as real - 1.0 < d <= AsInt(d) as real
    ensures d >= 2147483648.0 || d <= -2147483649.0 ==> AsInt(d) == -2147483648
    ensures DayOf(Num(d)) == Some(AsInt(d)) && NumberIn(Num(d)) == Some(AsInt(d))
  {}

  // ---- whatever a client sends ----

  /** Only a text that is not empty counts. */
  ghost predicate ReadsOptional(e: Value, name: string, t: Option<Text>) {
    if t.Some? then t.value != [] && HasText(e, name, t.value)
    else forall x {:trigger HasText(e, name, x)} :: HasText(e, name, x) ==> x == []
  }

  lemma TextsAnyway(e: Value)
    ensures var w := WindowFrom(e);
            && w.taskId == [] && (if w.id == [] then ReadsOptional(e, "Id", None) else ReadsOptional(e, "Id", Some(w.id)))
            && ReadsOptional(e, "StartDate", w.startDate) && ReadsOptional(e, "EndDate", w.endDate)
            && ReadsOptional(e, "StartTime", w.startTime) && ReadsOptional(e, "EndTime", w.endTime)
            && ReadsOptional(e, "RepeatUntil", w.repeatUntil)
  {
    NamesAre();
    hide Name, Ascii;
  }

  /** The kind is a name or a number. Any name but one is the kind of exact times, and so is
      anything else that is missing or no number. */
  lemma NumbersAnyway(e: Value)
    ensures HasText(e, "Type", Ascii("Interval")) ==> WindowFrom(e).kind == 1
    ensures forall x {:trigger HasText(e, "Type", x)} ::
              HasText(e, "Type", x) && x != Ascii("Interval") ==> WindowFrom(e).kind == 0
    ensures forall d {:trigger Num(d)} :: Has(e, "Type", Num(d)) ==> WindowFrom(e).kind == AsInt(d)
    ensures var m := e.Get(Ascii("Type"));
            m.None? || !(m.value.Str? || m.value.Num?) ==> WindowFrom(e).kind == 0
    ensures var m := e.Get(Ascii("RepeatIntervalMinutes"));
            WindowFrom(e).repeatInterval == if m.Some? && m.value.Num? then Some(AsInt(m.value.d)) else None
  {
    NamesAre();
    KindsRead();
    hide Name, Ascii, AsInt;
  }

  /** A day is a number, or one of the seven names; other lists hold only numbers or only texts. */
  lemma ItemMeaning(v: Value)
    ensures NumberIn(v) == if v.Num? then Some(AsInt(v.d)) else None
    ensures TextOf(v) == if v.Str? then Some(v.s) else None
    ensures v.Num? ==> DayOf(v) == Some(AsInt(v.d))
    ensures v.Str? ==> (DayOf(v).Some? <==> v in Week())
    ensures v.Str? && DayOf(v).Some? ==> 0 <= DayOf(v).value < |Week()| && Week()[DayOf(v).value] == v
    ensures !v.Num? && !v.Str? ==> DayOf(v).None?
  {
    if v.Str? {
      WeekHasSeven();
      NamedFrom(v.s, 0);
      forall d: nat | d < 7 ensures Week()[d] == Str(DayName(d)) { WeekIsNamed(d); }
    }
    hide AsInt, DayName, Week;
  }

  lemma {:induction false} NamedFrom(s: Text, from: nat)
    requires from <= 7
    ensures match DayNamed(s, from)
            case Some(d) => from <= d < 7 && s == DayName(d)
            case None => forall d: nat | from <= d < 7 :: s != DayName(d)
    decreases 7 - from
  {
    hide DayName;
    if from < 7 && s != DayName(from) { NamedFrom(s, from + 1); }
  }

  /** What is read from a list: the items that can be read, and no others, in order; `at` are
      their places. */
  ghost predicate Picked<T>(items: seq<Value>, f: Value -> Option<T>, at: seq<nat>, xs: seq<T>) {
    && |at| == |xs|
    && (forall j | 0 <= j < |at| :: at[j] < |items| && f(items[at[j]]) == Some(xs[j]))
    && (forall i, j | 0 <= i < j < |at| :: at[i] < at[j])
    && (forall i: nat | i < |items| && f(items[i]).Some? :: i in at)
  }

  lemma {:induction false} CollectPicks<T>(items: seq<Value>, f: Value -> Option<T>) returns (at: seq<nat>)
    ensures Picked(items, f, at, Collect(items, f))
  {
    if items == [] {
      at := [];
    } else {
      var n := |items| - 1;
      var before := CollectPicks(items[..n], f);
      at := if f(items[n]).Some? then before + [n] else before;
      OneMorePick(items, f, before, Collect(items[..n], f));
    }
  }

  lemma OneMorePick<T>(items: seq<Value>, f: Value -> Option<T>, at: seq<nat>, xs: seq<T>)
    requires items != [] && Picked(items[..|items| - 1], f, at, xs)
    ensures var n := |items| - 1; var last := f(items[n]);
            Picked(items, f, if last.Some? then at + [n as nat] else at, xs + if last.Some? then [last.value] else [])
  {
    var n: nat := |items| - 1;
    var front := items[..n];
    forall j | 0 <= j < |at| ensures f(items[at[j]]) == Some(xs[j]) { assert front[at[j]] == items[at[j]]; }
    var at' := if f(items[n]).Some? then at + [n] else at;
    forall i: nat | i < |items| && f(items[i]).Some? ensures i in at' {
      if i < n { assert front[i] == items[i]; }
    }
    assert xs + [] == xs;
  }

  function ItemsNamed(e: Value, name: string): seq<Value> {
    var m := e.Get(Ascii(name));
    if m.Some? && m.value.Arr? then m.value.items else []
  }

  lemma ListsAnyway(e: Value) returns (dow: seq<nat>, dom: seq<nat>, dates: seq<nat>, times: seq<nat>)
    ensures Picked(ItemsNamed(e, "DaysOfWeek"), DayOf, dow, WindowFrom(e).daysOfWeek)
    ensures Picked(ItemsNamed(e, "DaysOfMonth"), NumberIn, dom, WindowFrom(e).daysOfMonth)
    ensures Picked(ItemsNamed(e, "SpecificDates"), TextOf, dates, WindowFrom(e).specificDates)
    ensures Picked(ItemsNamed(e, "ExactTimes"), TextOf, times, WindowFrom(e).exactTimes)
  {
    NamesAre();
    hide Name, Ascii, Picked, AsInt, Collect, DayOf;
    dow := CollectPicks(ItemsNamed(e, "DaysOfWeek"), DayOf);
    dom := CollectPicks(ItemsNamed(e, "DaysOfMonth"), NumberIn);
    dates := CollectPicks(ItemsNamed(e, "SpecificDates"), TextOf);
    times := CollectPicks(ItemsNamed(e, "ExactTimes"), TextOf);
  }

  /** The windows of an array are its objects; anything else holds no windows. */
  lemma WindowsAnyway(v: Value) returns (at: seq<nat>)
    ensures !v.Arr? ==> WindowsIn(v) == []
    ensures v.Arr? ==> Picked(v.items, WindowOf, at, WindowsIn(v))
    ensures forall e :: WindowOf(e) == if e.Obj? then Some(WindowFrom(e)) else None
  {
    hide Picked, WindowFrom, Collect;
    at := [];
    if v.Arr? { at := CollectPicks(v.items, WindowOf); }
  }

  // ---- written by the service ----

  function DayText(d: Int32): Value {
    if d == 0 then Str(Ascii("Sunday")) else if d == 1 then Str(Ascii("Monday")) else if d == 2 then Str(Ascii("Tuesday"))
    else if d == 3 then Str(Ascii("Wednesday")) else if d == 4 then Str(Ascii("Thursday"))
    else if d == 5 then Str(Ascii("Friday")) else if d == 6 then Str(Ascii("Saturday")) else Num(d as real)
  }

  predicate HasOptional(v: Value, name: string, t: Option<Text>) {
    if t.Some? then HasText(v, name, t.value) else Has(v, name, Null)
  }

  lemma DaysByName(d: Int32)
    ensures DayValue(d) == DayText(d)
  {}

  /** The object printed for a window: these thirteen members. */
  lemma WrittenByName(w: Window)
    ensures var v := WindowValue(w);
            && v.Obj? && |v.fields| == 13 && HasText(v, "Id", w.id) && HasText(v, "TaskId", w.taskId)
            && HasText(v, "Type", Ascii(if w.kind == 0 then "ExactTimes" else "Interval"))
            && HasOptional(v, "StartDate", w.startDate) && HasOptional(v, "EndDate", w.endDate)
            && HasOptional(v, "StartTime", w.startTime) && HasOptional(v, "EndTime", w.endTime)
            && HasOptional(v, "RepeatUntil", w.repeatUntil)
  {
    ThirteenMembers(w);
    NamesAre();
    hide WindowValue, Name, Ascii;
    MemberBack(w, Id);
    MemberBack(w, TaskId);
    MemberBack(w, Type);
    MemberBack(w, StartDate);
    MemberBack(w, EndDate);
    MemberBack(w, StartTime);
    MemberBack(w, EndTime);
    MemberBack(w, RepeatUntil);
  }

  /** The member is an array with an item for each of `xs`. */
  predicate HasList<T>(v: Value, name: string, xs: seq<T>, item: T -> Value) {
    var m := v.Get(Ascii(name));
    m.Some? && m.value.Arr? && |m.value.items| == |xs| && forall i | 0 <= i < |xs| :: m.value.items[i] == item(xs[i])
  }

  function NumberItem(n: Int32): Value {
    Num(n as real)
  }

  function TextItem(t: Text): Value {
    Str(t)
  }

  lemma ListsByName(w: Window)
    ensures var v := WindowValue(w);
            && (if w.repeatInterval.Some? then Has(v, "RepeatIntervalMinutes", Num(w.repeatInterval.value as real))
                else Has(v, "RepeatIntervalMinutes", Null))
            && HasList(v, "DaysOfWeek", w.daysOfWeek, DayText) && HasList(v, "DaysOfMonth", w.daysOfMonth, NumberItem)
            && HasList(v, "SpecificDates", w.specificDates, TextItem) && HasList(v, "ExactTimes", w.exactTimes, TextItem)
  {
    NamesAre();
    hide WindowValue, Name, Ascii, HasList;
    MemberBack(w, RepeatIntervalMinutes);
    MemberBack(w, DaysOfWeek);
    DayList(WindowValue(w), w.daysOfWeek);
    MemberBack(w, DaysOfMonth);
    NumberList(WindowValue(w), w.daysOfMonth);
    MemberBack(w, SpecificDates);
    TextList(WindowValue(w), "SpecificDates", w.specificDates);
    MemberBack(w, ExactTimes);
    TextList(WindowValue(w), "ExactTimes", w.exactTimes);
  }

  lemma DayList(v: Value, ds: seq<Int32>)
    requires Has(v, "DaysOfWeek", Arr(Days(ds)))
    ensures HasList(v, "DaysOfWeek", ds, DayText)
  {
    forall i | 0 <= i < |ds| ensures Days(ds)[i] == DayText(ds[i]) { DaysByName(ds[i]); }
    hide DayValue, DayText, Ascii;
  }

  lemma NumberList(v: Value, ns: seq<Int32>)
    requires Has(v, "DaysOfMonth", Arr(Numbers(ns)))
    ensures HasList(v, "DaysOfMonth", ns, NumberItem)
  {
    hide Ascii;
  }

  lemma TextList(v: Value, name: string, ts: seq<Text>)
    requires Has(v, name, Arr(Strings(ts)))
    ensures HasList(v, name, ts, TextItem)
  {
    hide Ascii;
  }

  lemma ThirteenMembers(w: Window)
    ensures |WindowValue(w).fields| == 13
  {
    CountMembers(w, 13);
  }

  lemma {:induction false} CountMembers(w: Window, n: nat)
    requires n <= 13
    ensures |WindowJson.Members(w, n)| == n
  {
    if n == 0 {
      NoMembers(w);
    } else {
      CountMembers(w, n - 1);
      var k := KeyAt(n - 1);
      NextKey(k);
      hide Name, Member, FirstKeys;
      OneMoreMember(w, FirstKeys(n - 1), k);
      NotYetThere(w, n - 1, k);
    }
  }

  function KeyAt(n: nat): (k: Key)
    requires n < 13
    ensures Index(k) == n
  {
    match n
    case 0 => Id
    case 1 => TaskId
    case 2 => Type
    case 3 => StartDate
    case 4 => EndDate
    case 5 => StartTime
    case 6 => EndTime
    case 7 => RepeatIntervalMinutes
    case 8 => RepeatUntil
    case 9 => DaysOfWeek
    case 10 => DaysOfMonth
    case 11 => SpecificDates
    case _ => ExactTimes
  }

  lemma NotYetThere(w: Window, n: nat, k: Key)
    requires Index(k) == n
    ensures Name(k) !in WindowJson.Members(w, n) && k !in FirstKeys(n)
  {
    hide Name, Member;
    forall x | x in FirstKeys(n) ensures Name(x) != Name(k) {
      if Name(x) == Name(k) { NamesDiffer(x, k); }
    }
  }

  // ---- requests about tasks ----

  /** A task object can be read if its limit is missing, null or a number; its id is a text, and its
      windows are the list of that name. */
  lemma TaskByName(v: Value, id: Text, items: seq<Value>)
    requires v.Obj? && HasText(v, "Id", id) && Has(v, "TimeWindows", Arr(items))
    ensures OrEmpty(TextAt(v, Id)) == id && ListSent(v) == Some(Arr(items))
    ensures TaskReadable(v) <==>
      v.Get(Ascii("TimeoutMinutes")).None? || v.Get(Ascii("TimeoutMinutes")).value.Null?
      || v.Get(Ascii("TimeoutMinutes")).value.Num?
  {}
}
