/** The tick decision: whether a task is due, and what is remembered to keep it from running
    twice in a minute. */
module Schedule {
  import opened Common
  import opened Bytes
  import opened JsonNumber
  import opened JsonString
  import opened TimeWindows

  /** `Launch` carries the new remembered minute of the task, `None` when there is none. */
  datatype Decision = Launch(last: Option<int>) | Skip | Crash

  /** The loop over the windows of a task, in the order in which the query returns them. */
  function Decide(ws: seq<Window>, t: Moment, last: Option<int>): Decision {
    if ws == [] then Skip
    else match InWindow(ws[0], t)
      case No => Decide(ws[1..], t, last)
      case Fault => Crash
      case Yes =>
        if ws[0].kind != 0 then Launch(last)
        else if last == Some(t.minute) then Decide(ws[1..], t, last)
        else Launch(Some(t.minute))
  }

  method DecideTick(ws: seq<Window>, t: Moment, last: Option<int>) returns (d: Decision)
    ensures d == Decide(ws, t, last)
  {
    for i := 0 to |ws|
      invariant Decide(ws, t, last) == Decide(ws[i..], t, last)
    {
      assert ws[i..][1..] == ws[i + 1..];
      var v := IsInWindow(ws[i], t);
      if v == Fault { return Crash; }
      if v == Yes {
        if ws[i].kind == 0 {
          var remembered := if last.Some? then last.value else -1;
          if remembered != t.minute { return Launch(Some(t.minute)); }
        } else {
          return Launch(last);
        }
      }
    }
    d := Skip;
  }

  // ---- what the loop decides, and which orders matter ----

  predicate SomeInterval(ws: seq<Window>, t: Moment) {
    exists w | w in ws :: w.kind != 0 && InWindow(w, t) == Yes
  }

  predicate SomeExact(ws: seq<Window>, t: Moment) {
    exists w | w in ws :: w.kind == 0 && InWindow(w, t) == Yes
  }

  predicate SomeFault(ws: seq<Window>, t: Moment) {
    exists w | w in ws :: InWindow(w, t) == Fault
  }

  /** A window that ends the loop with a launch. */
  predicate SomeTrigger(ws: seq<Window>, t: Moment, last: Option<int>) {
    SomeInterval(ws, t) || (SomeExact(ws, t) && last != Some(t.minute))
  }

  /** Unless a faulting window is in the list, a task is launched exactly when an interval
      matches, or an exact time does and was not remembered yet. */
  lemma {:induction false} DecideMeaning(ws: seq<Window>, t: Moment, last: Option<int>)
    ensures Decide(ws, t, last).Launch? ==> SomeTrigger(ws, t, last)
    ensures Decide(ws, t, last).Crash? ==> SomeFault(ws, t)
    ensures !SomeFault(ws, t) ==> (Decide(ws, t, last).Launch? <==> SomeTrigger(ws, t, last))
    ensures !SomeTrigger(ws, t, last) ==> (Decide(ws, t, last).Crash? <==> SomeFault(ws, t))
    ensures Decide(ws, t, last).Launch? ==>
      var l := Decide(ws, t, last).last;
      (l == last && SomeInterval(ws, t)) || (l == Some(t.minute) && SomeExact(ws, t) && last != l)
    ensures Decide(ws, t, last).Launch? && !SomeInterval(ws, t) ==> Decide(ws, t, last).last == Some(t.minute)
  {
    hide InWindow;
    if ws != [] {
      assert forall w :: w in ws <==> w == ws[0] || w in ws[1..];
      DecideMeaning(ws[1..], t, last);
    }
  }

  predicate Reordered(a: seq<Window>, b: seq<Window>) {
    multiset(a) == multiset(b)
  }

  lemma SameMembers(a: seq<Window>, b: seq<Window>)
    requires Reordered(a, b)
    ensures forall w :: w in a <==> w in b
  {
    assert forall w :: w in a <==> w in multiset(a);
    assert forall w :: w in b <==> w in multiset(b);
  }

  /** Moves one window to the front. */
  lemma ToFront(ws: seq<Window>, w: Window) returns (b: seq<Window>)
    requires w in ws
    ensures Reordered(ws, b) && b != [] && b[0] == w
  {
    var i :| 0 <= i < |ws| && ws[i] == w;
    b := [w] + ws[..i] + ws[i + 1..];
    assert ws == ws[..i] + [w] + ws[i + 1..];
  }

  ghost predicate SameKindForAllOrders(ws: seq<Window>, t: Moment, last: Option<int>) {
    forall b | Reordered(ws, b) :: Decide(b, t, last).Launch? == Decide(ws, t, last).Launch?
  }

  ghost predicate SameForAllOrders(ws: seq<Window>, t: Moment, last: Option<int>) {
    forall b | Reordered(ws, b) :: Decide(b, t, last) == Decide(ws, t, last)
  }

  /** Every order of the windows makes the same launch decision, unless the list holds both a
      window that triggers and one that faults. */
  lemma OrderOfWindows(ws: seq<Window>, t: Moment, last: Option<int>)
    ensures SameKindForAllOrders(ws, t, last) <==> !(SomeTrigger(ws, t, last) && SomeFault(ws, t))
  {
    hide Decide, InWindow;
    if SomeTrigger(ws, t, last) && SomeFault(ws, t) {
      var f :| f in ws && InWindow(f, t) == Fault;
      var g :| g in ws && InWindow(g, t) == Yes && (g.kind != 0 || last != Some(t.minute));
      var a := ToFront(ws, f);
      var b := ToFront(ws, g);
      FirstDecides(a, t, last);
      FirstDecides(b, t, last);
    } else {
      forall b | Reordered(ws, b) ensures Decide(b, t, last).Launch? == Decide(ws, t, last).Launch? {
        SameMembers(ws, b);
        DecideMeaning(ws, t, last);
        DecideMeaning(b, t, last);
      }
    }
  }

  lemma FirstDecides(ws: seq<Window>, t: Moment, last: Option<int>)
    requires ws != []
    ensures InWindow(ws[0], t) == Fault ==> Decide(ws, t, last) == Crash
    ensures InWindow(ws[0], t) == Yes && ws[0].kind != 0 ==> Decide(ws, t, last) == Launch(last)
    ensures InWindow(ws[0], t) == Yes && ws[0].kind == 0 && last != Some(t.minute) ==>
      Decide(ws, t, last) == Launch(Some(t.minute))
  {}

  /** Without faulting windows, the remembered minute is the same for every order too, unless
      both an interval and a fresh exact time match at this moment. */
  lemma OrderOfMemory(ws: seq<Window>, t: Moment, last: Option<int>)
    requires !SomeFault(ws, t)
    ensures SameForAllOrders(ws, t, last) <==>
      !(SomeInterval(ws, t) && SomeExact(ws, t) && last != Some(t.minute))
  {
    hide Decide, InWindow;
    if SomeInterval(ws, t) && SomeExact(ws, t) && last != Some(t.minute) {
      var f :| f in ws && InWindow(f, t) == Yes && f.kind != 0;
      var g :| g in ws && InWindow(g, t) == Yes && g.kind == 0;
      var a := ToFront(ws, f);
      var b := ToFront(ws, g);
      FirstDecides(a, t, last);
      FirstDecides(b, t, last);
    } else {
      forall b | Reordered(ws, b) ensures Decide(b, t, last) == Decide(ws, t, last) {
        SameMembers(ws, b);
        DecideMeaning(ws, t, last);
        DecideMeaning(b, t, last);
      }
    }
  }

  // ---- whole runs of ticks ----

  /** Local time as a function of absolute minutes. */
  type Calendar = int -> Moment

  /** What is remembered after the first `n` ticks of a service that starts fresh. */
  function Remembered(ws: seq<Window>, cal: Calendar, ticks: seq<int>, n: nat): Option<int>
    requires n <= |ticks|
  {
    if n == 0 then None
    else
      var before := Remembered(ws, cal, ticks, n - 1);
      var d := Decide(ws, cal(ticks[n - 1]), before);
      if d.Launch? then d.last else before
  }

  predicate Fires(ws: seq<Window>, cal: Calendar, ticks: seq<int>, i: nat)
    requires i < |ticks|
  {
    Decide(ws, cal(ticks[i]), Remembered(ws, cal, ticks, i)).Launch?
  }

  predicate ExactOnly(ws: seq<Window>) {
    forall w | w in ws :: w.kind == 0
  }

  predicate Due(ws: seq<Window>, cal: Calendar, m: int) {
    SomeExact(ws, cal(m))
  }

  /** The last of the first `n` ticks at which the task is due. */
  function LatestDue(ws: seq<Window>, cal: Calendar, ticks: seq<int>, n: nat): (r: Option<nat>)
    requires n <= |ticks|
    ensures r.None? ==> forall j | 0 <= j < n :: !Due(ws, cal, ticks[j])
    ensures r.Some? ==> r.value < n && Due(ws, cal, ticks[r.value])
    ensures r.Some? ==> forall j | r.value < j < n :: !Due(ws, cal, ticks[j])
  {
    hide Due;
    if n == 0 then None
    else if Due(ws, cal, ticks[n - 1]) then Some(n - 1)
    else LatestDue(ws, cal, ticks, n - 1)
  }

  lemma ExactDecides(ws: seq<Window>, cal: Calendar, m: int, last: Option<int>)
    requires ExactOnly(ws)
    ensures var d := Decide(ws, cal(m), last);
            && (d.Launch? <==> Due(ws, cal, m) && last != Some(cal(m).minute))
            && (d.Launch? ==> d.last == Some(cal(m).minute))
  {
    hide Decide;
    DecideMeaning(ws, cal(m), last);
  }

  /** The remembered minute is the minute of the latest tick at which the task was due. */
  lemma {:induction false} RememberedIsLatest(ws: seq<Window>, cal: Calendar, ticks: seq<int>, n: nat)
    requires n <= |ticks| && ExactOnly(ws)
    ensures var j := LatestDue(ws, cal, ticks, n);
            Remembered(ws, cal, ticks, n) == if j.None? then None else Some(cal(ticks[j.value]).minute)
  {
    hide Decide, Due, ExactOnly;
    if n > 0 {
      RememberedIsLatest(ws, cal, ticks, n - 1);
      ExactDecides(ws, cal, ticks[n - 1], Remembered(ws, cal, ticks, n - 1));
    }
  }

  /** A tick launches an exact-time task exactly when the task is due and the latest due tick
      before it was in a different minute of the day. The date of that tick plays no part. */
  lemma FiresWhen(ws: seq<Window>, cal: Calendar, ticks: seq<int>, i: nat)
    requires i < |ticks| && ExactOnly(ws)
    ensures var j := LatestDue(ws, cal, ticks, i);
            Fires(ws, cal, ticks, i) <==>
              Due(ws, cal, ticks[i]) && (j.None? || cal(ticks[j.value]).minute != cal(ticks[i]).minute)
  {
    hide Decide, Due, ExactOnly;
    RememberedIsLatest(ws, cal, ticks, i);
    ExactDecides(ws, cal, ticks[i], Remembered(ws, cal, ticks, i));
  }

  predicate NonDecreasing(ticks: seq<int>) {
    forall i, j | 0 <= i < j < |ticks| :: ticks[i] <= ticks[j]
  }

  /** No due minute passes without a tick. */
  ghost predicate Covered(ws: seq<Window>, cal: Calendar, ticks: seq<int>) {
    ticks != [] ==> forall m | ticks[0] <= m <= ticks[|ticks| - 1] && Due(ws, cal, m) :: m in ticks
  }

  ghost predicate PreviousDue(ws: seq<Window>, cal: Calendar, p: int, m: int) {
    p < m && Due(ws, cal, p) && forall q | p < q < m :: !Due(ws, cal, q)
  }

  /** The due minute before `m` on this run falls on the same minute of the day. */
  ghost predicate Masked(ws: seq<Window>, cal: Calendar, ticks: seq<int>, m: int) {
    exists p | p in ticks :: PreviousDue(ws, cal, p, m) && cal(p).minute == cal(m).minute
  }

  lemma FirstTickOf(ticks: seq<int>, m: int) returns (i: nat)
    requires m in ticks
    ensures i < |ticks| && ticks[i] == m && forall j | 0 <= j < i :: ticks[j] != m
  {
    i := 0;
    while ticks[i] != m
      invariant i < |ticks| && forall j | 0 <= j < i :: ticks[j] != m
      decreases |ticks| - i
    {
      i := i + 1;
    }
  }

  lemma MaskedMeansSameMinute(ws: seq<Window>, cal: Calendar, ticks: seq<int>, i: nat)
    requires NonDecreasing(ticks) && Covered(ws, cal, ticks)
    requires i < |ticks| && forall j | 0 <= j < i :: ticks[j] != ticks[i]
    ensures var j := LatestDue(ws, cal, ticks, i);
            Masked(ws, cal, ticks, ticks[i]) <==> j.Some? && cal(ticks[j.value]).minute == cal(ticks[i]).minute
  {
    hide Due, LatestDue;
    var m, j := ticks[i], LatestDue(ws, cal, ticks, i);
    if j.Some? {
      var p := ticks[j.value];
      forall q | p < q < m ensures !Due(ws, cal, q) {
        if q in ticks {
          var k :| 0 <= k < |ticks| && ticks[k] == q;
          assert j.value < k < i;
        }
      }
      assert PreviousDue(ws, cal, p, m);
    }
    if p :| p in ticks && PreviousDue(ws, cal, p, m) {
      var k :| 0 <= k < |ticks| && ticks[k] == p;
      assert k < i;
    }
  }

  /** The firings in one minute. */
  function FiringsAt(ws: seq<Window>, cal: Calendar, ticks: seq<int>, m: int): set<nat> {
    set i: nat | i < |ticks| && ticks[i] == m && Fires(ws, cal, ticks, i)
  }

  /** On every run with a clock that does not go back and a tick in every due minute, each due
      minute launches the task exactly once, except that it launches nothing when the due
      minute before it was the same minute of an earlier day. */
  lemma ExactlyOnceFiring(ws: seq<Window>, cal: Calendar, ticks: seq<int>, m: int)
    requires ExactOnly(ws) && NonDecreasing(ticks) && Covered(ws, cal, ticks)
    requires m in ticks && Due(ws, cal, m)
    ensures |FiringsAt(ws, cal, ticks, m)| == if Masked(ws, cal, ticks, m) then 0 else 1
  {
    hide Due, LatestDue, Fires, ExactOnly, Covered, Masked;
    var i := FirstTickOf(ticks, m);
    forall k: nat | k < |ticks| && ticks[k] == m
      ensures Fires(ws, cal, ticks, k) <==> k == i && !Masked(ws, cal, ticks, m)
    {
      FiresWhen(ws, cal, ticks, k);
      if k == i {
        MaskedMeansSameMinute(ws, cal, ticks, i);
      } else {
        assert LatestDue(ws, cal, ticks, k).Some?;
        var j := LatestDue(ws, cal, ticks, k).value;
        assert i <= j < k && ticks[j] == m;
      }
    }
    assert FiringsAt(ws, cal, ticks, m) == if Masked(ws, cal, ticks, m) then {} else {i};
  }

  /** A task whose due minutes all fall on one minute of the day is launched at its first due
      tick and never again: the remembered minute carries no date. */
  lemma OneDailyTimeFiresOnce(ws: seq<Window>, cal: Calendar, ticks: seq<int>, minute: int, i: nat)
    requires ExactOnly(ws) && i < |ticks|
    requires forall m | Due(ws, cal, m) :: cal(m).minute == minute
    ensures Fires(ws, cal, ticks, i) <==>
      Due(ws, cal, ticks[i]) && forall j | 0 <= j < i :: !Due(ws, cal, ticks[j])
  {
    hide Due, LatestDue, Fires, ExactOnly;
    FiresWhen(ws, cal, ticks, i);
  }

  /** A matching interval launches the task at every single tick of the minute. */
  lemma IntervalFiresEveryTick(ws: seq<Window>, cal: Calendar, ticks: seq<int>, i: nat)
    requires i < |ticks| && !SomeFault(ws, cal(ticks[i])) && SomeInterval(ws, cal(ticks[i]))
    ensures Fires(ws, cal, ticks, i)
  {
    DecideMeaning(ws, cal(ticks[i]), Remembered(ws, cal, ticks, i));
  }

  // ---- dates ----

  /** The windows differ at most in the dates they give. */
  predicate SameButDates(a: seq<Window>, b: seq<Window>) {
    |a| == |b| && forall i | 0 <= i < |a| :: Redated(a[i], b[i])
  }

  predicate Redated(a: Window, b: Window) {
    b == a.(startDate := b.startDate, endDate := b.endDate, specificDates := b.specificDates)
  }

  lemma RedatedDecides(a: Window, b: Window, t: Moment)
    requires Redated(a, b)
    ensures InWindow(a, t) == InWindow(b, t)
  {
    hide TimeToMinutes;
  }

  lemma {:induction false} DatesDoNotDecide(a: seq<Window>, b: seq<Window>, t: Moment, last: Option<int>)
    requires SameButDates(a, b)
    ensures Decide(a, t, last) == Decide(b, t, last)
  {
    hide InWindow;
    if a != [] {
      RedatedDecides(a[0], b[0], t);
      assert forall i | 0 <= i < |a| - 1 :: a[1..][i] == a[i + 1] && b[1..][i] == b[i + 1];
      DatesDoNotDecide(a[1..], b[1..], t, last);
    }
  }

  /** Start dates, end dates and specific dates have no influence on any run. */
  lemma {:induction false} DatesDoNotMatter(a: seq<Window>, b: seq<Window>, cal: Calendar, ticks: seq<int>, i: nat)
    requires SameButDates(a, b) && i <= |ticks|
    ensures Remembered(a, cal, ticks, i) == Remembered(b, cal, ticks, i)
    ensures i < |ticks| ==> (Fires(a, cal, ticks, i) <==> Fires(b, cal, ticks, i))
  {
    hide Decide, SameButDates;
    if i > 0 {
      DatesDoNotMatter(a, b, cal, ticks, i - 1);
      DatesDoNotDecide(a, b, cal(ticks[i - 1]), Remembered(a, cal, ticks, i - 1));
    }
    if i < |ticks| {
      DatesDoNotDecide(a, b, cal(ticks[i]), Remembered(a, cal, ticks, i));
    }
  }

  // ---- at nine o'clock ----

  /** A calendar without summer time: minute 0 is the start of a Sunday. */
  function PlainCalendar(m: int): Moment {
    Local(m / DAY % 7, m / DAY % 28 + 1, m % DAY)
  }

  /** "09:00" and "17:00". */
  const NINE: Text := [48, 57, 58, 48, 48]
  const FIVE: Text := [49, 55, 58, 48, 48]

  const AT_NINE: Window :=
    Window([], [], 0, None, None, [], [], [], [NINE], None, None, None, None)

  function FromNineToFive(interval: Int32): Window {
    Window([], [], 1, None, None, [], [], [], [], Some(NINE), Some(FIVE), Some(interval), None)
  }

  function TwoDigits(a: Byte, b: Byte): (n: int)
    requires IsDigit(a) && IsDigit(b)
    ensures n == DigitsValue([a, b])
  {
    assert [a, b][..1] == [a] && [a][..0] == [];
    assert DigitsValue([a]) == a - 48;
    (a - 48) * 10 + (b - 48)
  }

  lemma FourDigits(a: Byte, b: Byte, c: Byte, d: Byte)
    requires IsDigit(a) && IsDigit(b) && IsDigit(c) && IsDigit(d)
    ensures TimeToMinutes([a, b, COLON, c, d]) == TwoDigits(a, b) * 60 + TwoDigits(c, d)
  {
    hide TimeToMinutes, DigitsValue;
    ClockTextRead([a, b], [c, d], []);
    assert [a, b, COLON, c, d] == [a, b] + ([COLON] + ([c, d] + []));
  }

  lemma OfficeHours()
    ensures TimeToMinutes(NINE) == 540 && TimeToMinutes(FIVE) == 1020
  {
    hide TimeToMinutes, DigitsValue;
    FourDigits(48, 57, 48, 48);
    FourDigits(49, 55, 48, 48);
  }

  /** A task for nine o'clock, with a tick at nine on each of two days, is launched on the first
      of them only. */
  lemma NineOnTwoDays()
    ensures Due([AT_NINE], PlainCalendar, 540) && Due([AT_NINE], PlainCalendar, 1980)
    ensures Fires([AT_NINE], PlainCalendar, [540, 1980], 0)
    ensures !Fires([AT_NINE], PlainCalendar, [540, 1980], 1)
  {
    OfficeHours();
    assert AT_NINE in [AT_NINE] && AT_NINE.exactTimes[0] == NINE;
    assert InWindow(AT_NINE, PlainCalendar(540)) == Yes && InWindow(AT_NINE, PlainCalendar(1980)) == Yes;
    FiresWhen([AT_NINE], PlainCalendar, [540, 1980], 0);
    FiresWhen([AT_NINE], PlainCalendar, [540, 1980], 1);
    hide Due;
    assert LatestDue([AT_NINE], PlainCalendar, [540, 1980], 1) == Some(0);
  }

  /** An hourly task with two ticks in the minute of nine o'clock is launched twice. */
  lemma HourlyTwiceInAMinute()
    ensures Fires([FromNineToFive(60)], PlainCalendar, [540, 540], 0)
    ensures Fires([FromNineToFive(60)], PlainCalendar, [540, 540], 1)
  {
    OfficeHours();
    hide TimeToMinutes, Fires;
    AloneInTheList(FromNineToFive(60), PlainCalendar(540));
    hide FromNineToFive, PlainCalendar, SomeInterval, SomeFault, InWindow;
    var ticks := [540, 540];
    IntervalFiresEveryTick([FromNineToFive(60)], PlainCalendar, ticks, 0);
    IntervalFiresEveryTick([FromNineToFive(60)], PlainCalendar, ticks, 1);
  }

  lemma AloneInTheList(w: Window, t: Moment)
    requires w.kind != 0 && InWindow(w, t) == Yes
    ensures SomeInterval([w], t) && !SomeFault([w], t)
  {
    hide InWindow;
    assert w in [w];
  }

  /** A repeat interval of zero ends the process in any minute between start and end. */
  lemma ZeroIntervalFaults(m: int)
    requires 540 <= PlainCalendar(m).minute <= 1020
    ensures forall last :: Decide([FromNineToFive(0)], PlainCalendar(m), last) == Crash
  {
    OfficeHours();
  }
}
