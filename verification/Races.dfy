/** Concrete runs in which launches get in the way of the checking pass or a process outlives its
    timeout: what the exact conditions rule out, seen at work. */
module Races {
  import opened Common
  import opened History
  import opened Engine
  import opened Effects
  import opened Handles
  import opened LiveProcesses
  import opened Discipline
  import opened Overruns
  import opened Steering

  ghost predicate Reaches(s: State, es: seq<Event>, t: State) {
    Leads(FREE, s, es, t)
  }

  lemma Step(s: State, e: Event, t: State)
    requires Enabled(s, e) && t == Next(s, e)
    ensures Reaches(s, [e], t)
  {
    hide Enabled, Next;
    LeadsStep(FREE, s, e, t);
  }

  lemma Then(s: State, a: seq<Event>, m: State, b: seq<Event>, t: State)
    requires Reaches(s, a, m) && Reaches(m, b, t)
    ensures Reaches(s, a + b, t)
  {
    hide Leads;
    LeadsOn(FREE, s, a, m, b, t);
  }

  lemma Then4(s0: State, a: seq<Event>, s1: State, b: seq<Event>, s2: State, c: seq<Event>, s3: State,
              d: seq<Event>, s4: State)
    requires Reaches(s0, a, s1) && Reaches(s1, b, s2) && Reaches(s2, c, s3) && Reaches(s3, d, s4)
    ensures Reaches(s0, a + b + c + d, s4)
  {
    hide Reaches;
    Then(s0, a, s1, b, s2);
    Then(s0, a + b, s2, c, s3);
    Then(s0, a + b + c, s3, d, s4);
  }

  /** A task that may run for one minute. */
  function OneMinute(kill: bool): map<TaskId, Task> {
    map[1 := Task(true, WaitNext, Some(1), kill)]
  }

  function OpenRow(now: int, pid: int): Row {
    Row(1, Stamp(now), None, None, pid, Running, NoMessage)
  }

  // ---- pieces of runs ----

  /** The steps of one successful launch up to storing the entry. */
  function Tracking(th: Thread, row: RowId, h: Handle): seq<Event> {
    [BeginLaunch(th, 1, row)] + [CreateProcess(th, h, 100)] + [Track(th)]
  }

  function TrackedState(s: State, th: Thread, row: RowId, h: Handle): State {
    s.(history := s.history[row := OpenRow(s.now, 0)], usedRows := s.usedRows + {row},
       running := s.running[1 := Proc(h, s.now)], launches := map[th := Tracked(1, row, 100)],
       issued := s.issued + {h}, live := s.live + {h}, origin := s.origin[h := Origin(1, row, th)],
       overwritten := s.overwritten + if 1 in s.running then 1 else 0)
  }

  lemma TrackRun(s: State, th: Thread, row: RowId, h: Handle)
    requires s.launches == map[] && 1 in s.tasks && row !in s.usedRows && h !in s.issued
    ensures Reaches(s, Tracking(th, row, h), TrackedState(s, th, row, h))
  {
    var s1 := Next(s, BeginLaunch(th, 1, row));
    var s2 := Next(s1, CreateProcess(th, h, 100));
    var s3 := Next(s2, Track(th));
    Step(s, BeginLaunch(th, 1, row), s1);
    Step(s1, CreateProcess(th, h, 100), s2);
    Step(s2, Track(th), s3);
    assert s3 == TrackedState(s, th, row, h);
    hide Reaches;
    Then(s, [BeginLaunch(th, 1, row)], s1, [CreateProcess(th, h, 100)], s2);
    Then(s, [BeginLaunch(th, 1, row)] + [CreateProcess(th, h, 100)], s2, [Track(th)], s3);
  }

  function Launching(th: Thread, row: RowId, h: Handle): seq<Event> {
    Tracking(th, row, h) + [EndLaunch(th)]
  }

  function LaunchedState(s: State, th: Thread, row: RowId, h: Handle): State {
    TrackedState(s, th, row, h).(history := s.history[row := OpenRow(s.now, 100)], launches := map[])
  }

  lemma LaunchRun(s: State, th: Thread, row: RowId, h: Handle)
    requires s.launches == map[] && 1 in s.tasks && row !in s.usedRows && h !in s.issued
    ensures Reaches(s, Launching(th, row, h), LaunchedState(s, th, row, h))
  {
    var m, t := TrackedState(s, th, row, h), LaunchedState(s, th, row, h);
    TrackRun(s, th, row, h);
    assert Next(m, EndLaunch(th)).launches == t.launches;
    assert Next(m, EndLaunch(th)).history == t.history;
    Step(m, EndLaunch(th), t);
    hide Reaches;
    Then(s, Tracking(th, row, h), m, [EndLaunch(th)], t);
  }

  /** The beginning of a pass, the snapshot of the only entry and its examination. */
  function Examined(row: RowId): seq<Event> {
    [BeginPass] + [Snapshot([1])] + [Examine(0, Some(row))]
  }

  lemma ExaminedRun(s: State, row: RowId, t: State)
    requires s.pass.Idle? && s.running.Keys == {1} && IsNewest(s.history, 1, Some(row))
    requires t == ExamineNext(s.(pass := Examining(s.now, [(1, s.running[1])], [], [])), 0, Some(row))
    ensures Reaches(s, Examined(row), t)
  {
    assert Elements([1]) == {1};
    var b := s.(pass := Starting(s.now));
    var m := s.(pass := Examining(s.now, [(1, s.running[1])], [], []));
    assert Next(b, Snapshot([1])).pass.todo == [(1, s.running[1])];
    Step(s, BeginPass, b);
    Step(b, Snapshot([1]), m);
    Step(m, Examine(0, Some(row)), t);
    hide Reaches;
    Then(s, [BeginPass], b, [Snapshot([1])], m);
    Then(s, [BeginPass] + [Snapshot([1])], m, [Examine(0, Some(row))], t);
  }

  predicate IsOverdue(s: State) {
    && s.pass.Idle? && s.running.Keys == {1} && 1 in s.tasks
    && s.running[1].handle in s.live && s.running[1].handle !in s.closed
    && TimedOut(s.tasks[1], s.now, s.running[1])
  }

  lemma OverdueRun(s: State, row: RowId)
    requires IsOverdue(s) && IsNewest(s.history, 1, Some(row))
    ensures Reaches(s, Examined(row), s.(pass := Examining(s.now, [], [], [1])))
  {
    assert [(1, s.running[1])][1..] == [] && [] + [1] == [1];
    ExaminedRun(s, row, s.(pass := Examining(s.now, [], [], [1])));
  }

  /** The only overdue entry is taken out of the map. */
  function Taking(): seq<Event> {
    [EraseExited] + [TakeTimedOut]
  }

  lemma TakingRun(s: State)
    requires s.pass == Examining(s.now, [], [], [1]) && 1 in s.running
    ensures Reaches(s, Taking(), s.(running := s.running - {1}, pass := Finishing(1, s.running[1], [])))
  {
    var m := s.(pass := Expiring([1]));
    assert Next(s, EraseExited).running == s.running;
    Step(s, EraseExited, m);
    assert [1][1..] == [];
    Step(m, TakeTimedOut, s.(running := s.running - {1}, pass := Finishing(1, s.running[1], [])));
    hide Reaches;
    Then(s, [EraseExited], m, [TakeTimedOut], s.(running := s.running - {1}, pass := Finishing(1, s.running[1], [])));
  }

  /** A process launched at time 0 with handle 3 and row 5, one minute later. */
  function Aged(kill: bool): State {
    LaunchedState(Initial(OneMinute(kill), 0, map[]), 7, 5, 3).(now := MINUTE)
  }

  function AgedEvents(): seq<Event> {
    Launching(7, 5, 3) + [SetClock(MINUTE)]
  }

  lemma AgedRun(kill: bool)
    ensures Reaches(Initial(OneMinute(kill), 0, map[]), AgedEvents(), Aged(kill))
    ensures RowsOf(Aged(kill).history, 1) == {5} && IsOverdue(Aged(kill))
  {
    var s0 := Initial(OneMinute(kill), 0, map[]);
    var m := LaunchedState(s0, 7, 5, 3);
    LaunchRun(s0, 7, 5, 3);
    Step(m, SetClock(MINUTE), Aged(kill));
    hide Reaches;
    Then(s0, Launching(7, 5, 3), m, [SetClock(MINUTE)], Aged(kill));
  }

  // ---- the races ----

  function ReopenEvents(): seq<Event> {
    Tracking(7, 5, 3) + [ProcessExits(3)] + Examined(5)
  }

  /** A pass that starts after a launch has tracked its process and before the launch has
      written its row back: the row is completed by the pass, and then set to running again,
      without an end time, by the launch. */
  lemma CompletedRowReopened()
    ensures var s0 := Initial(OneMinute(false), 0, map[]);
            Runs(s0, ReopenEvents()) &&
            var s := After(s0, ReopenEvents());
            && 5 in s.history && s.history[5].status == Completed && s.history[5].end.Some?
            && Enabled(s, EndLaunch(7))
            && 5 in Next(s, EndLaunch(7)).history
            && Next(s, EndLaunch(7)).history[5].status == Running && Next(s, EndLaunch(7)).history[5].end.None?
  {
    hide Reaches, Runs, After;
    var s0 := Initial(OneMinute(false), 0, map[]);
    var s1 := TrackedState(s0, 7, 5, 3);
    TrackRun(s0, 7, 5, 3);
    var s2 := s1.(live := s1.live - {3});
    Step(s1, ProcessExits(3), s2);
    assert RowsOf(s2.history, 1) == {5};
    var t := ExamineNext(s2.(pass := Examining(s2.now, [(1, s2.running[1])], [], [])), 0, Some(5));
    ExaminedRun(s2, 5, t);
    Then(s0, Tracking(7, 5, 3), s1, [ProcessExits(3)], s2);
    Then(s0, Tracking(7, 5, 3) + [ProcessExits(3)], s2, Examined(5), t);
    Reached(s0, ReopenEvents(), t);
  }

  function FreshRunEvents(): seq<Event> {
    AgedEvents() + Examined(5) + Taking() + Launching(8, 6, 4) + [FinishTimedOut(Some(6))]
  }

  /** A launch of a task between the removal of its overdue entry and the lookup of its newest
      row: the timeout is written into the row of the new process, which is alive and
      tracked, and the row of the process that timed out stays open. */
  lemma FreshRunMarkedTimeout()
    ensures var s0 := Initial(OneMinute(false), 0, map[]);
            Runs(s0, FreshRunEvents()) &&
            var s := After(s0, FreshRunEvents());
            && 6 in s.history && s.history[6].status == Timeout && 5 in s.history && s.history[5].end.None?
            && 4 in s.live && IsTracked(s, 4) && s.origin[4].row == 6
  {
    hide Runs, After, Reaches, Tracking, Launching, Examined, Taking, AgedEvents;
    var s0, s1 := Initial(OneMinute(false), 0, map[]), Aged(false);
    AgedRun(false);
    OverdueRun(s1, 5);
    var s2 := s1.(pass := Examining(s1.now, [], [], [1]));
    TakingRun(s2);
    var s3 := s2.(running := s2.running - {1}, pass := Finishing(1, s2.running[1], []));
    LaunchRun(s3, 8, 6, 4);
    var s4 := LaunchedState(s3, 8, 6, 4);
    assert RowsOf(s4.history, 1) == {5, 6} && s4.history[6].start == 60 && s4.history[5].start == 0;
    var t := FinishTimedOutNext(s4, Some(6));
    Step(s4, FinishTimedOut(Some(6)), t);
    Then4(s0, AgedEvents(), s1, Examined(5), s2, Taking(), s3, Launching(8, 6, 4), s4);
    Then(s0, AgedEvents() + Examined(5) + Taking() + Launching(8, 6, 4), s4, [FinishTimedOut(Some(6))], t);
    Reached(s0, FreshRunEvents(), t);
  }

  lemma Reached(s: State, es: seq<Event>, t: State)
    requires Reaches(s, es, t)
    ensures Runs(s, es) && After(s, es) == t
  {
    LeadsRuns(FREE, s, es, t);
  }

  function YoungKilledEvents(): seq<Event> {
    AgedEvents() + Examined(5) + Launching(8, 6, 4) + Taking() + [FinishTimedOut(Some(6))]
  }

  /** A launch of a tracked task while the pass is examining: the new process is killed and
      marked as timed out at age zero, and the handle of the overdue one is lost. */
  lemma YoungProcessKilled()
    ensures var s0 := Initial(OneMinute(true), 0, map[]);
            Runs(s0, YoungKilledEvents()) &&
            var s := After(s0, YoungKilledEvents());
            && 6 in s.history && s.history[6].status == Timeout && s.history[6].end == Some(s.history[6].start)
            && 4 !in s.live && 3 in s.live && 3 in Lost(s)
  {
    hide Runs, After, Reaches, Tracking, Launching, Examined, Taking, AgedEvents;
    var s0, s1 := Initial(OneMinute(true), 0, map[]), Aged(true);
    AgedRun(true);
    OverdueRun(s1, 5);
    var s2 := s1.(pass := Examining(s1.now, [], [], [1]));
    LaunchRun(s2, 8, 6, 4);
    var s3 := LaunchedState(s2, 8, 6, 4);
    TakingRun(s3);
    var s4 := s3.(running := s3.running - {1}, pass := Finishing(1, s3.running[1], []));
    assert RowsOf(s4.history, 1) == {5, 6} && s4.history[6].start == 60 && s4.history[5].start == 0;
    var t := FinishTimedOutNext(s4, Some(6));
    Step(s4, FinishTimedOut(Some(6)), t);
    Then4(s0, AgedEvents(), s1, Examined(5), s2, Launching(8, 6, 4), s3, Taking(), s4);
    Then(s0, AgedEvents() + Examined(5) + Launching(8, 6, 4) + Taking(), s4, [FinishTimedOut(Some(6))], t);
    Reached(s0, YoungKilledEvents(), t);
  }

  /** Without termination on timeout the overdue process lives on untracked, and the next
      launch makes it two. */
  lemma SurvivorMakesTwo() returns (es: seq<Event>, s: State)
    ensures Leads(APART, Initial(OneMinute(false), 0, map[]), es, s) && !AtMostOneEach(s)
  {
    es, s := SecondProcess(APART, OneMinute(false), 0, map[], 1);
  }
}
