/** What is known of a service from the fact that its past is a run of the engine. */
module Chronicle {
  import opened Common
  import opened History
  import opened Engine
  import opened Effects
  import opened Handles
  import opened Discipline
  import opened Attribution
  import opened LiveProcesses
  import opened Timeouts
  import opened Steering
  import opened Overruns
  import opened Solo

  /** The code reported for a process is the one it exited with. */
  predicate Reports(codes: Handle -> int, s: State, e: Event) {
    e.Examine? && s.pass.Examining? && s.pass.todo != [] && s.pass.todo[0].1.handle !in s.live ==>
      s.pass.todo[0].0 in s.tasks ==> e.code == codes(s.pass.todo[0].1.handle)
  }

  ghost predicate ReportsRun(codes: Handle -> int, s: State, es: seq<Event>)
    decreases |es|
  {
    Runs(s, es) && (es != [] ==> Reports(codes, s, es[0]) && ReportsRun(codes, Next(s, es[0]), es[1..]))
  }

  lemma {:induction false} ReportsConcat(codes: Handle -> int, s: State, a: seq<Event>, b: seq<Event>)
    requires Runs(s, a + b)
    ensures Runs(s, a)
    ensures ReportsRun(codes, s, a + b) <==> ReportsRun(codes, s, a) && ReportsRun(codes, After(s, a), b)
    decreases |a|
  {
    hide Next, Enabled, Reports;
    if a == [] {
      assert a + b == b;
    } else {
      assert (a + b)[1..] == a[1..] + b;
      ReportsConcat(codes, Next(s, a[0]), a[1..], b);
    }
  }

  lemma ReportsOne(codes: Handle -> int, s: State, e: Event)
    requires Enabled(s, e) && Reports(codes, s, e)
    ensures ReportsRun(codes, s, [e])
  {
    hide Next, Enabled, Reports;
    RunsOne(s, e);
    assert [e][1..] == [];
    assert ReportsRun(codes, Next(s, e), []);
  }

  /** The past of a service: what it did is a run of the engine from the start of the service on
      some database; without clients only the worker has launched, and no task was edited. */
  ghost predicate Past(clientless: bool, codes: Handle -> int, start: State, trace: seq<Event>) {
    && start == Initial(start.tasks, start.now, start.history) && Stored(start.tasks, start.history)
    && Runs(start, trace) && ReportsRun(codes, start, trace)
    && (clientless ==> ObeyingRun(SOLO, start, trace))
  }

  lemma PastExtends(clientless: bool, codes: Handle -> int, start: State, trace: seq<Event>, e: Event)
    requires Past(clientless, codes, start, trace) && Enabled(After(start, trace), e)
    requires Reports(codes, After(start, trace), e) && (clientless ==> Solitary(After(start, trace), e))
    ensures Past(clientless, codes, start, trace + [e])
    ensures After(start, trace + [e]) == Next(After(start, trace), e)
  {
    hide Solitary, Enabled, Next, Reports;
    var s := After(start, trace);
    RunsOne(s, e);
    RunsConcat(start, trace, [e]);
    ReportsOne(codes, s, e);
    ReportsConcat(codes, start, trace, [e]);
    if clientless {
      ObeyingConcat(SOLO, start, trace, [e]);
      SoloObeys(s, e);
      LeadsStep(SOLO, s, e, Next(s, e));
    }
  }

  // ---- single events, so that callers need not look into the definitions ----

  lemma ExamineEvent(s: State, code: int, pick: Option<RowId>)
    requires s.pass.Examining? && s.pass.todo != [] && IsNewest(s.history, s.pass.todo[0].0, pick)
    requires pick.Some? ==> pick.value in s.history
    ensures var e := Examine(code, pick); Enabled(s, e) && Next(s, e) == ExamineNext(s, code, pick)
  {}

  lemma FinishEvent(s: State, pick: Option<RowId>, kill: bool, t: State)
    requires s.pass.Finishing? && IsNewest(s.history, s.pass.task, pick)
    requires pick.Some? ==> pick.value in s.history
    requires kill == (s.pass.task in s.tasks && s.tasks[s.pass.task].kill)
    requires t.live == (if kill then s.live - {s.pass.proc.handle} else s.live)
    requires t.history == RecordTimeout(s.history, pick, Stamp(s.now), kill)
    requires t.closed == s.closed + {s.pass.proc.handle}
    requires t.faulty == (s.faulty || s.pass.proc.handle in s.closed)
    requires t == s.(live := t.live, history := t.history, closed := t.closed, faulty := t.faulty,
                     pass := Expiring(s.pass.due))
    ensures var e := FinishTimedOut(pick); Enabled(s, e) && t == Next(s, e)
  {}

  lemma BeginEvent(s: State, th: Thread, id: TaskId, row: RowId)
    requires th !in s.launches && id in s.tasks && row !in s.usedRows
    ensures var e := BeginLaunch(th, id, row); Enabled(s, e) && Next(s, e) == BeginLaunchNext(s, th, id, row)
  {}

  lemma CreateEvent(s: State, th: Thread, h: Handle, pid: int)
    requires th in s.launches && s.launches[th].Begun? && h !in s.issued
    ensures var e := CreateProcess(th, h, pid);
            Enabled(s, e) && Next(s, e) == CreateProcessNext(s, th, h, pid)
  {}

  lemma TrackEvent(s: State, th: Thread)
    requires th in s.launches && s.launches[th].Created?
    ensures var e := Track(th); Enabled(s, e) && Next(s, e) == TrackNext(s, th)
  {}

  lemma EraseEvent(s: State)
    requires s.pass.Examining? && s.pass.todo == []
    ensures Enabled(s, EraseExited) && Next(s, EraseExited) == EraseExitedNext(s)
  {}

  lemma EditEvent(s: State, edited: map<TaskId, Task>)
    ensures var e := EditTasks(edited); Enabled(s, e) && Next(s, e) == EditTasksNext(s, edited)
  {}

  // ---- what a past implies ----

  lemma NobodyIdle(s: State)
    requires HandlesOk(s) && s.pass.Idle?
    ensures TrackedHandles(s) <= s.issued - s.closed
  {}

  /** Handle safety always. Without clients: if every enabled task waits, every handle issued is
      between operations closed or tracked; if every one is also killed when late, at most one
      process per task is alive. */
  lemma PastIsSafe(clientless: bool, codes: Handle -> int, start: State, trace: seq<Event>)
    requires Past(clientless, codes, start, trace)
    ensures var s := After(start, trace);
            && HandlesOk(s) && !s.faulty
            && (s.pass.Idle? ==> TrackedHandles(s) <= s.issued - s.closed && |Lost(s)| == s.overwritten)
            && (clientless && Waiting(start.tasks) ==> s.overwritten == 0)
            && (clientless && Waiting(start.tasks) && s.pass.Idle? && s.launches == map[] ==>
                 s.issued == s.closed + TrackedHandles(s))
            && (clientless && Waiting(start.tasks) && Killing(start.tasks) ==> AtMostOneEach(s))
  {
    hide Next, Enabled, AllApart, Lost, TrackedHandles, AtMostOneEach, Waiting, Killing;
    var s := After(start, trace);
    HandlesRun(start, trace);
    assert !s.faulty;
    hide HandlesOk;
    if s.pass.Idle? {
      NobodyIdle(s);
      HandleConservation(start.tasks, start.now, start.history, trace);
    }
    if clientless && Waiting(start.tasks) {
      WaitingKeepsApart(start, trace);
      StartsApart(start.tasks, start.now, start.history);
      NothingOverwritten(APART, start, trace);
      if Killing(start.tasks) { WaitingKillingIsSafe(start.tasks, start.now, start.history, trace); }
    }
  }

  lemma {:induction false} SteadyBefore(s: State, a: seq<Event>, b: seq<Event>)
    requires SteadyRun(s, a + b)
    ensures SteadyRun(s, a)
    decreases |a|
  {
    hide Next, Enabled, Steady;
    if a != [] {
      assert (a + b)[1..] == a[1..] + b;
      SteadyBefore(Next(s, a[0]), a[1..], b);
    }
  }

  /** A service without clients whose clock is not set back during a pass never marks a process as
      timed out before it has reached its limit, whatever exits, however long a pass takes, and
      whether its tasks wait or not. */
  lemma PastTimeouts(codes: Handle -> int, start: State, a: seq<Event>, b: seq<Event>)
    requires Past(true, codes, start, a + b) && SteadyRun(start, a + b)
    ensures Runs(start, a) && !EarlyTake(After(start, a))
  {
    hide Next, Enabled, Steady, EarlyTake;
    ObeyingConcat(SOLO, start, a, b);
    SteadyBefore(start, a, b);
    SoloTimeouts(start.tasks, start.now, start.history, a);
  }

  lemma {:induction false} BothRules(s: State, es: seq<Event>)
    requires ObeyingRun(APART, s, es) && ObeyingRun(Rules(false, true, false, false), s, es)
    ensures ObeyingRun(Rules(true, true, false, false), s, es)
    decreases |es|
  {
    hide Next, Enabled, Apart, FreshStamp;
    if es != [] {
      BothRules(Next(s, es[0]), es[1..]);
    }
  }

  /** The history of a service without clients, if its tasks wait and none is launched twice in a
      second: the end of every process is recorded in the row of its launch and in no other, with
      the code it exited with or the way it timed out, and stays. */
  lemma PastAttribution(codes: Handle -> int, start: State, a: seq<Event>, e: Event, b: seq<Event>)
    requires Past(true, codes, start, a + ([e] + b)) && Waiting(start.tasks)
    requires ObeyingRun(Rules(false, true, false, false), start, a + ([e] + b))
    ensures Runs(start, a) && Enabled(After(start, a), e)
    ensures var s := After(start, a);
            && EndsOwnRow(s, e, Next(s, e)) && RecordsEnd(s, e, Next(s, e))
            && EndedKept(s, After(start, a + ([e] + b)))
            && (e.Examine? && Subject(s, e).Some? ==> EndingOf(s, e) == Exited(codes(Subject(s, e).value)))
  {
    hide Next, Enabled, EndsOwnRow, RecordsEnd, EndedKept, Waiting;
    ReportsConcat(codes, start, a, [e] + b);
    WaitingKeepsApart(start, a + ([e] + b));
    BothRules(start, a + ([e] + b));
    HistoryAttribution(start.tasks, start.now, start.history, a, e, b);
  }
}
