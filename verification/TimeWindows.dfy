/** Triggers, and the test whether a moment lies in one. */
module TimeWindows {
  import opened Bytes
  import opened Common
  import opened JsonString
  import opened JsonNumber

  type Int32 = n: int | -0x8000_0000 <= n < 0x8000_0000

  /** `kind` is the enumeration value as an integer: 0 is a list of exact times and every other
      value a repeated interval. */
  datatype Window = Window(
    id: Text,
    taskId: Text,
    kind: Int32,
    startDate: Option<Text>,
    endDate: Option<Text>,
    daysOfWeek: seq<Int32>,
    daysOfMonth: seq<Int32>,
    specificDates: seq<Text>,
    exactTimes: seq<Text>,
    startTime: Option<Text>,
    endTime: Option<Text>,
    repeatInterval: Option<Int32>,
    repeatUntil: Option<Text>)

  const DAY: int := 1440

  /** A moment in local time: Sunday is 0, and `minute` counts from midnight. */
  datatype Local = Local(weekday: int, day: int, minute: int)

  type Moment = t: Local | 0 <= t.minute < DAY witness Local(0, 1, 0)

  // ---- times of day ----

  predicate IsBlank(b: Byte) {
    b == SPACE || 9 <= b <= 13
  }

  function SkipBlanks(s: Text): Text {
    if s != [] && IsBlank(s[0]) then SkipBlanks(s[1..]) else s
  }

  /** One %d: blanks, an optional sign, digits. */
  function ScanNumber(s: Text): Parsed<Option<int>> {
    var sign := ScanSign(SkipBlanks(s));
    var digits := ScanDigits(sign.rest);
    var n := DigitsValue(digits.value);
    Parsed(if digits.value == [] then None else Some(if sign.value == [MINUS] then -n else n), digits.rest)
  }

  function OrZero(n: Option<int>): int {
    if n.Some? then n.value else 0
  }

  /** Conversion to a 32-bit integer. */
  function Wrap32(n: int): Int32 {
    (n + 0x8000_0000) % 0x1_0000_0000 - 0x8000_0000
  }

  /** Scans "%d:%d"; whatever cannot be read counts as zero. */
  function TimeToMinutes(s: Text): Int32 {
    var h := ScanNumber(s);
    var m := if h.value.Some? && h.rest != [] && h.rest[0] == COLON then ScanNumber(h.rest[1..]).value else None;
    Wrap32(OrZero(h.value) * 60 + OrZero(m))
  }

  lemma ScanPlainNumber(digits: Text, after: Text)
    requires digits != [] && AllDigits(digits) && (after != [] ==> !IsDigit(after[0]))
    ensures ScanNumber(digits + after) == Parsed(Some(DigitsValue(digits)), after)
  {
    var s := digits + after;
    assert IsDigit(s[0]);
    assert SkipBlanks(s) == s;
    DigitRunStops(digits, after);
  }

  /** Any two runs of digits with a colon between them, padded or not and whatever follows, are
      read as hours and minutes; seconds are ignored. */
  lemma ClockTextRead(h: Text, m: Text, after: Text)
    requires h != [] && AllDigits(h) && m != [] && AllDigits(m)
    requires after != [] ==> !IsDigit(after[0])
    ensures TimeToMinutes(h + ([COLON] + (m + after))) == Wrap32(DigitsValue(h) * 60 + DigitsValue(m))
  {
    hide ScanNumber, Wrap32, DigitsValue;
    var rest := [COLON] + (m + after);
    ScanPlainNumber(h, rest);
    assert rest[1..] == m + after;
    ScanPlainNumber(m, after);
  }

  /** One %d as it may be written. */
  datatype Signed = Signed(blanks: Text, sign: Text, digits: Text)

  predicate IsSigned(n: Signed) {
    && (forall i | 0 <= i < |n.blanks| :: n.blanks[i] == 32 || 9 <= n.blanks[i] <= 13)
    && n.sign in [[], Ascii("+"), Ascii("-")]
    && n.digits != [] && forall i | 0 <= i < |n.digits| :: n.digits[i] in Ascii("0123456789")
  }

  function SignedText(n: Signed, after: Text): Text {
    n.blanks + (n.sign + (n.digits + after))
  }

  function SignedValue(n: Signed): int {
    if n.sign == Ascii("-") then -Weighed(n.digits) else Weighed(n.digits)
  }

  lemma DigitsAreDigits(t: Text)
    requires forall i | 0 <= i < |t| :: t[i] in Ascii("0123456789")
    ensures AllDigits(t)
  {
    forall i | 0 <= i < |t| ensures IsDigit(t[i]) { DigitCharacters(t[i]); }
  }

  lemma {:induction false} BlanksAreSkipped(blanks: Text, t: Text)
    requires forall i | 0 <= i < |blanks| :: blanks[i] == 32 || 9 <= blanks[i] <= 13
    requires t != [] && !IsBlank(t[0])
    ensures SkipBlanks(blanks + t) == t
  {
    if blanks == [] {
      assert blanks + t == t;
    } else {
      assert (blanks + t)[1..] == blanks[1..] + t;
      BlanksAreSkipped(blanks[1..], t);
    }
  }

  lemma SignedScan(n: Signed, after: Text)
    requires IsSigned(n) && (after != [] ==> !IsDigit(after[0]))
    ensures ScanNumber(SignedText(n, after)) == Parsed(Some(SignedValue(n)), after)
  {
    var t := n.digits + after;
    DigitsAreDigits(n.digits);
    DigitsAreWeighed(n.digits);
    assert Ascii("+") == [PLUS] && Ascii("-") == [MINUS];
    assert IsDigit(t[0]);
    var u := n.sign + t;
    assert u[0] == if n.sign == [] then t[0] else n.sign[0];
    BlanksAreSkipped(n.blanks, u);
    assert ScanSign(u) == Parsed(n.sign, t) by {
      if n.sign == [] { assert u == t; } else { assert u[1..] == t; }
    }
    DigitRunStops(n.digits, after);
  }

  predicate Fits(n: int) {
    -2147483648 <= n <= 2147483647
  }

  /** A time of day as "%d:%d" reads it: with blanks and signs, and whatever follows. */
  lemma LooseClockRead(h: Signed, m: Signed, after: Text)
    requires IsSigned(h) && IsSigned(m) && (after != [] ==> !IsDigit(after[0]))
    requires Fits(60 * SignedValue(h) + SignedValue(m))
    ensures TimeToMinutes(SignedText(h, Ascii(":") + SignedText(m, after))) == 60 * SignedValue(h) + SignedValue(m)
  {
    hide ScanNumber, SignedText, SignedValue, IsSigned;
    var rest := Ascii(":") + SignedText(m, after);
    assert rest[0] == COLON && rest[1..] == SignedText(m, after);
    SignedScan(h, rest);
    SignedScan(m, after);
  }

  /** Without a colon right after the hours there are no minutes. */
  lemma HoursOnly(h: Signed, after: Text)
    requires IsSigned(h) && (after != [] ==> !IsDigit(after[0]) && after[0] != Ascii(":")[0])
    requires Fits(60 * SignedValue(h))
    ensures TimeToMinutes(SignedText(h, after)) == 60 * SignedValue(h)
  {
    hide ScanNumber, SignedText, SignedValue, IsSigned;
    SignedScan(h, after);
  }

  /** What begins with no number is midnight. */
  lemma NoHours(s: Text)
    requires s == [] || !(s[0] in Ascii("0123456789+- ") || 9 <= s[0] <= 13)
    ensures TimeToMinutes(s) == 0
  {
    if s != [] {
      assert Ascii("0123456789+- ") == [48, 49, 50, 51, 52, 53, 54, 55, 56, 57, 43, 45, 32];
      assert DigitRun(s) == 0 && s[..0] == [];
    }
  }

  /** A time of day as it is usually written: "9:05", "09:05", "09:05:00". */
  datatype Clock = Clock(hours: Text, minutes: Text, after: Text)

  predicate IsClock(c: Clock) {
    && IsSigned(Signed([], [], c.hours)) && IsSigned(Signed([], [], c.minutes))
    && (c.after != [] ==> c.after[0] !in Ascii("0123456789")) && Fits(ClockMinute(c))
  }

  function ClockText(c: Clock): Text {
    c.hours + (Ascii(":") + (c.minutes + c.after))
  }

  function ClockMinute(c: Clock): int {
    60 * Weighed(c.hours) + Weighed(c.minutes)
  }

  lemma ClockRead(c: Clock)
    requires IsClock(c)
    ensures TimeToMinutes(ClockText(c)) == ClockMinute(c)
  {
    if c.after != [] { DigitCharacters(c.after[0]); }
    hide TimeToMinutes, Weighed;
    var h, m := Signed([], [], c.hours), Signed([], [], c.minutes);
    LooseClockRead(h, m, c.after);
    assert SignedText(m, c.after) == c.minutes + c.after;
    assert SignedText(h, Ascii(":") + SignedText(m, c.after)) == ClockText(c);
  }

  // ---- membership ----

  /** `Fault` is the division by zero of a repeat interval of zero, which ends the process. */
  datatype Verdict = No | Yes | Fault

  predicate DaysAllow(w: Window, t: Moment) {
    && (w.daysOfWeek == [] || t.weekday in w.daysOfWeek)
    && (w.daysOfMonth == [] || t.day in w.daysOfMonth)
  }

  /** Start and end dates and specific dates are not looked at. */
  function InWindow(w: Window, t: Moment): Verdict {
    if !DaysAllow(w, t) then No
    else if w.kind == 0 then
      if exists i | 0 <= i < |w.exactTimes| :: TimeToMinutes(w.exactTimes[i]) == t.minute then Yes else No
    else if w.startTime.None? || w.endTime.None? || w.repeatInterval.None? then No
    else
      var first := TimeToMinutes(w.startTime.value);
      if t.minute < first || t.minute > TimeToMinutes(w.endTime.value) then No
      else if w.repeatUntil.Some? && t.minute > TimeToMinutes(w.repeatUntil.value) then No
      else if w.repeatInterval.value == 0 then Fault
      else if (t.minute - first) % w.repeatInterval.value < 1 then Yes else No
  }

  method IsInWindow(w: Window, t: Moment) returns (v: Verdict)
    ensures v == InWindow(w, t)
  {
    hide TimeToMinutes;
    if w.daysOfWeek != [] && t.weekday !in w.daysOfWeek { return No; }
    if w.daysOfMonth != [] && t.day !in w.daysOfMonth { return No; }
    if w.kind == 0 {
      for i := 0 to |w.exactTimes|
        invariant forall j | 0 <= j < i :: TimeToMinutes(w.exactTimes[j]) != t.minute
      {
        var distance := t.minute - TimeToMinutes(w.exactTimes[i]);
        if (if distance < 0 then -distance else distance) < 1 { return Yes; }
      }
      return No;
    }
    if w.startTime.None? || w.endTime.None? || w.repeatInterval.None? { return No; }
    var first, last := TimeToMinutes(w.startTime.value), TimeToMinutes(w.endTime.value);
    if t.minute < first || t.minute > last { return No; }
    if w.repeatUntil.Some? && t.minute > TimeToMinutes(w.repeatUntil.value) { return No; }
    if w.repeatInterval.value == 0 { return Fault; }
    var elapsed := t.minute - first;
    return if elapsed % w.repeatInterval.value < 1 then Yes else No;
  }

  // ---- what the test means ----

  /** On a day that is not listed no window matches, nor faults. */
  lemma OtherDays(w: Window, t: Moment)
    requires (w.daysOfWeek != [] && t.weekday !in w.daysOfWeek) || (w.daysOfMonth != [] && t.day !in w.daysOfMonth)
    ensures InWindow(w, t) == No
  {}

  /** On the other days a list of times of day matches exactly the minutes it names. */
  lemma ExactMeaning(w: Window, t: Moment, clocks: seq<Clock>)
    requires w.daysOfWeek == [] || t.weekday in w.daysOfWeek
    requires w.daysOfMonth == [] || t.day in w.daysOfMonth
    requires w.kind == 0 && |clocks| == |w.exactTimes|
    requires forall i | 0 <= i < |clocks| :: IsClock(clocks[i]) && w.exactTimes[i] == ClockText(clocks[i])
    ensures InWindow(w, t) == if exists i :: 0 <= i < |clocks| && ClockMinute(clocks[i]) == t.minute then Yes else No
  {
    hide TimeToMinutes, ClockText, IsClock, ClockMinute;
    forall i | 0 <= i < |clocks| ensures TimeToMinutes(w.exactTimes[i]) == ClockMinute(clocks[i]) { ClockRead(clocks[i]); }
  }

  /** After `k` repetitions. The sign of the interval does not matter. */
  function Repeated(first: int, interval: int, k: nat): int {
    first + k * (if interval < 0 then -interval else interval)
  }

  predicate IsClockText(t: Option<Text>, c: Clock) {
    IsClock(c) && t == Some(ClockText(c))
  }

  /** A repeated interval matches every so many minutes from its start time, not after its end time
      nor its repeat limit. A repeat interval of zero faults there. */
  lemma IntervalMeaning(w: Window, t: Moment, start: Clock, end: Clock, until: Option<Clock>)
    requires w.daysOfWeek == [] || t.weekday in w.daysOfWeek
    requires w.daysOfMonth == [] || t.day in w.daysOfMonth
    requires w.kind != 0 && w.repeatInterval.Some? && IsClockText(w.startTime, start) && IsClockText(w.endTime, end)
    requires if until.Some? then IsClockText(w.repeatUntil, until.value) else w.repeatUntil.None?
    ensures var r: int := w.repeatInterval.value;
            InWindow(w, t) ==
              if t.minute < ClockMinute(start) || t.minute > ClockMinute(end)
                 || (until.Some? && t.minute > ClockMinute(until.value)) then No
              else if r == 0 then Fault
              else if exists k: nat :: Repeated(ClockMinute(start), r, k) == t.minute then Yes else No
  {
    hide TimeToMinutes, ClockText, IsClock, ClockMinute;
    ClockRead(start);
    ClockRead(end);
    if until.Some? { ClockRead(until.value); }
    if w.repeatInterval.value != 0 { IntervalProgression(w, t); }
  }

  /** Without start time, end time or repeat interval it never matches. */
  lemma IncompleteInterval(w: Window, t: Moment)
    requires w.kind != 0 && (w.startTime.None? || w.endTime.None? || w.repeatInterval.None?)
    ensures InWindow(w, t) == No
  {}

  // ---- intervals as arithmetic progressions ----

  /** An interval window with all it needs to match at all. */
  predicate Repeats(w: Window) {
    w.kind != 0 && w.startTime.Some? && w.endTime.Some? && w.repeatInterval.Some? && w.repeatInterval.value != 0
  }

  function Step(w: Window): (r: int)
    requires Repeats(w)
    ensures r > 0
  {
    var r: int := w.repeatInterval.value;
    if r < 0 then -r else r
  }

  function Nth(w: Window, k: nat): int
    requires Repeats(w)
  {
    TimeToMinutes(w.startTime.value) + k * Step(w)
  }

  /** The last minute of the day in which the window can match. */
  function Bound(w: Window): int
    requires Repeats(w)
  {
    var e := TimeToMinutes(w.endTime.value);
    var e' := if w.repeatUntil.Some? && TimeToMinutes(w.repeatUntil.value) < e then TimeToMinutes(w.repeatUntil.value) else e;
    if e' < DAY - 1 then e' else DAY - 1
  }

  lemma Distribute(a: int, b: int, r: int)
    ensures (a + b) * r == a * r + b * r && (a - b) * r == a * r - b * r
  {}

  lemma {:induction false} MulNonNegative(a: nat, r: nat)
    ensures a * r >= 0
  {
    if a > 0 {
      MulNonNegative(a - 1, r);
      Distribute(a - 1, 1, r);
    }
  }

  lemma MulGap(a: int, b: int, r: int)
    requires r > 0
    ensures a < b ==> a * r + r <= b * r
    ensures a <= b ==> a * r <= b * r
  {
    if a < b {
      MulNonNegative(b - a - 1, r);
      Distribute(b - a, 1, r);
      Distribute(b, a, r);
    }
  }

  lemma Quotient(n: int, r: int)
    requires r > 0
    ensures n == (n / r) * r + n % r && 0 <= n % r < r
    ensures n / r >= 0 <==> n >= 0
  {
    MulGap(n / r, 0, r);
    MulGap(0, n / r, r);
  }

  lemma QuotientUnique(n: int, r: int, q: int, m: int)
    requires r > 0 && n == q * r + m && 0 <= m < r
    ensures n / r == q && n % r == m
  {
    Quotient(n, r);
    MulGap(q, n / r, r);
    MulGap(n / r, q, r);
  }

  /** Remainders do not depend on the sign of the divisor. */
  lemma SameRemainder(n: int, r: int)
    requires r != 0
    ensures n % r == n % (if r < 0 then -r else r)
  {
    if r < 0 {
      var q, m := n / r, n % r;
      assert n == q * r + m && 0 <= m < -r;
      assert n == (-q) * (-r) + m;
      QuotientUnique(n, -r, -q, m);
    }
  }

  /** On the days listed, the window matches exactly the members of the progression that starts at
      its start time, up to its end time and its repeat limit. */
  lemma IntervalProgression(w: Window, t: Moment)
    requires w.daysOfWeek == [] || t.weekday in w.daysOfWeek
    requires w.daysOfMonth == [] || t.day in w.daysOfMonth
    requires Repeats(w)
    ensures var r: int := w.repeatInterval.value;
            var first := TimeToMinutes(w.startTime.value);
            InWindow(w, t) == Yes <==>
              && first <= t.minute <= TimeToMinutes(w.endTime.value)
              && (w.repeatUntil.Some? ==> t.minute <= TimeToMinutes(w.repeatUntil.value))
              && exists k: nat :: Repeated(first, r, k) == t.minute
    ensures InWindow(w, t) == Yes <==> t.minute <= Bound(w) && exists k: nat :: Nth(w, k) == t.minute
    ensures InWindow(w, t) != Fault
  {
    var first, r := TimeToMinutes(w.startTime.value), Step(w);
    var n := t.minute - first;
    hide TimeToMinutes;
    SameRemainder(n, w.repeatInterval.value);
    Quotient(n, r);
    if InWindow(w, t) == Yes {
      assert Nth(w, n / r) == t.minute;
    }
    if k: nat :| Nth(w, k) == t.minute {
      MulGap(0, k, r);
      QuotientUnique(n, r, k, 0);
      assert Repeated(first, w.repeatInterval.value, k) == t.minute;
    }
    if k: nat :| Repeated(first, w.repeatInterval.value, k) == t.minute {
      assert Nth(w, k) == t.minute;
    }
  }

  function MatchingMinutes(w: Window, weekday: int, day: int): set<int> {
    set m | 0 <= m < DAY && InWindow(w, Local(weekday, day, m)) == Yes
  }

  /** The first member of the progression that is a minute of the day. */
  function First(w: Window): (m: int)
    requires Repeats(w)
    ensures m >= 0
  {
    var s := TimeToMinutes(w.startTime.value);
    if s >= 0 then s else s % Step(w)
  }

  function Members(first: int, step: int, count: nat): set<int> {
    if count == 0 then {} else Members(first, step, count - 1) + {first + (count - 1) * step}
  }

  lemma NextMember(first: int, step: int, count: nat, m: int)
    requires step > 0 && first + count * step <= m < first + count * step + step
    ensures (m - first) % step == 0 <==> m == first + count * step
  {
    QuotientUnique(m - first, step, count, m - (first + count * step));
  }

  lemma {:induction false} MembersAre(first: int, step: int, count: nat, m: int)
    requires step > 0
    ensures m in Members(first, step, count) <==> first <= m < first + count * step && (m - first) % step == 0
  {
    if count > 0 {
      MembersAre(first, step, count - 1, m);
      Distribute(count, 1, step);
      MulGap(0, count - 1, step);
      if first + (count - 1) * step <= m < first + count * step {
        NextMember(first, step, count - 1, m);
      }
    }
  }

  lemma {:induction false} MembersCount(first: int, step: int, count: nat)
    requires step > 0
    ensures |Members(first, step, count)| == count
  {
    if count > 0 {
      MembersCount(first, step, count - 1);
      MembersAre(first, step, count - 1, first + (count - 1) * step);
    }
  }

  function HowMany(w: Window): nat
    requires Repeats(w)
  {
    Quotient(Bound(w) - First(w), Step(w));
    if First(w) <= Bound(w) then (Bound(w) - First(w)) / Step(w) + 1 else 0
  }

  lemma Congruent(s: int, f: int, r: int, m: int)
    requires r > 0 && m >= 0 && f == if s >= 0 then s else s % r
    ensures m >= s && (m - s) % r == 0 <==> m >= f && (m - f) % r == 0
  {
    if s < 0 {
      var c := s / r;
      Quotient(s, r);
      Quotient(m - s, r);
      Quotient(m - f, r);
      var q, p := (m - s) / r, (m - f) / r;
      if (m - s) % r == 0 {
        Distribute(q, c, r);
        QuotientUnique(m - f, r, q + c, 0);
        MulGap(q + c, 0, r);
      }
      if (m - f) % r == 0 {
        Distribute(p, c, r);
        QuotientUnique(m - s, r, p - c, 0);
      }
    }
  }

  lemma FirstIsCongruent(w: Window, m: int)
    requires Repeats(w) && m >= 0
    ensures (exists k: nat :: Nth(w, k) == m) <==> m >= First(w) && (m - First(w)) % Step(w) == 0
  {
    var s, r := TimeToMinutes(w.startTime.value), Step(w);
    hide TimeToMinutes;
    Congruent(s, First(w), r, m);
    if k: nat :| Nth(w, k) == m {
      MulGap(0, k, r);
      QuotientUnique(m - s, r, k, 0);
    }
    if m >= s && (m - s) % r == 0 {
      Quotient(m - s, r);
      assert Nth(w, (m - s) / r) == m;
    }
  }

  lemma WithinBound(f: int, b: int, r: int, m: int)
    requires r > 0 && f <= b && (m - f) % r == 0
    ensures m <= b <==> m < f + ((b - f) / r + 1) * r
  {
    var q, p := (b - f) / r, (m - f) / r;
    Quotient(b - f, r);
    Quotient(m - f, r);
    Distribute(q, 1, r);
    MulGap(p, q, r);
    MulGap(q, p, r);
  }

  /** On the days listed the window matches in evenly spaced minutes, and the formula counts them;
      on other days in none. */
  lemma IntervalCount(w: Window, weekday: int, day: int)
    requires Repeats(w)
    ensures var listed := (w.daysOfWeek == [] || weekday in w.daysOfWeek) && (w.daysOfMonth == [] || day in w.daysOfMonth);
            && MatchingMinutes(w, weekday, day) == (if listed then Members(First(w), Step(w), HowMany(w)) else {})
            && |MatchingMinutes(w, weekday, day)| == if listed then HowMany(w) else 0
  {
    hide InWindow, Nth, Members, TimeToMinutes;
    var f, b, r, n := First(w), Bound(w), Step(w), HowMany(w);
    if (w.daysOfWeek == [] || weekday in w.daysOfWeek) && (w.daysOfMonth == [] || day in w.daysOfMonth) {
      MembersCount(f, r, n);
      forall m: int ensures m in MatchingMinutes(w, weekday, day) <==> m in Members(f, r, n) {
        MembersAre(f, r, n, m);
        if 0 <= m < DAY {
          IntervalProgression(w, Local(weekday, day, m));
          FirstIsCongruent(w, m);
        }
        if f <= b && (m - f) % r == 0 {
          WithinBound(f, b, r, m);
        }
      }
    } else {
      forall m | 0 <= m < DAY ensures InWindow(w, Local(weekday, day, m)) == No { OtherDays(w, Local(weekday, day, m)); }
      assert MatchingMinutes(w, weekday, day) == {};
    }
  }
}
