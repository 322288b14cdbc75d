/** When a process is timed out over whole runs: never before it has reached its limit, and not
    later than in the pass that finds it there. */
module Timeouts {
  import opened Common
  import opened History
  import opened Engine
  import opened Effects
  import opened Handles
  import opened Discipline
  import opened LiveProcesses
  import opened Steering
  import opened Overruns
  import opened Solo

  // ---- never too early ----

  /** The pass has taken an entry that has not reached the limit of its task. */
  predicate EarlyTake(s: State) {
    s.pass.Finishing? && !(s.pass.task in s.tasks && TimedOut(s.tasks[s.pass.task], s.now, s.pass.proc))
  }

  predicate LateAtStart(s: State, id: TaskId) {
    s.pass.Starting? && id in s.running && LateEntry(s, s.pass.began, (id, s.running[id]))
  }

  /** The pass has found the task late, or will if its process does not exit first. */
  predicate WillExpire(s: State, id: TaskId) {
    id in DueIds(s.pass) || LateInSnapshot(s, id) || LateAtStart(s, id)
  }

  predicate HasReachedLimit(s: State, id: TaskId)
    requires id in s.running
  {
    id in s.tasks && TimedOut(s.tasks[id], s.now, s.running[id])
  }

  /** The entry the pass has taken and those it is going to take have reached their limits. */
  predicate Timely(s: State) {
    (forall id | id in s.running && WillExpire(s, id) :: HasReachedLimit(s, id)) && !EarlyTake(s)
  }

  /** What the rest of the world may do while a pass is going on: track processes, set the clock
      and edit tasks as long as nothing that the pass is going to take is, or becomes, younger than
      its limit. While no pass is going on that is no restriction. */
  predicate InTime(s: State, e: Event) {
    match e
    case Track(th) => th in s.launches && s.launches[th].Created? ==> Timely(TrackNext(s, th))
    case SetClock(time) => Timely(s.(now := time))
    case EditTasks(edited) => Timely(EditTasksNext(s, edited))
    case _ => true
  }

  ghost predicate InTimeRun(s: State, es: seq<Event>)
    decreases |es|
  {
    Runs(s, es) && (es != [] ==> InTime(s, es[0]) && InTimeRun(Next(s, es[0]), es[1..]))
  }

  lemma LimitStaysReached(task: Task, a: int, b: int, proc: Proc)
    requires TimedOut(task, a, proc) && a <= b
    ensures TimedOut(task, b, proc)
  {
    TimeoutAge(task, a, proc);
    TimeoutAge(task, b, proc);
  }

  /** A process that starts now is late at once exactly if the limit is not positive. */
  lemma NewbornIsLate(task: Task, now: int, h: Handle)
    ensures TimedOut(task, now, Proc(h, now)) <==> task.timeout.Some? && task.timeout.value <= 0
  {}

  lemma TimelyBegin(s: State, e: Event)
    requires Enabled(s, e) && e.BeginPass?
    ensures Timely(Next(s, e))
  {
    OutsideEffect(s, e);
    hide Next, Enabled, TimedOut;
  }

  lemma TimelySnapshot(s: State, e: Event)
    requires Timely(s) && Enabled(s, e) && e.Snapshot?
    ensures Timely(Next(s, e))
  {
    SnapshotEffect(s, e);
    hide Next, Enabled, TimedOut;
    var t := Next(s, e);
    assert forall i | 0 <= i < |e.order| :: e.order[i] in Elements(e.order);
    forall id | id in t.running && WillExpire(t, id) ensures WillExpire(s, id) {
      var i :| 0 <= i < |t.pass.todo| && t.pass.todo[i].0 == id && LateEntry(t, t.pass.began, t.pass.todo[i]);
    }
  }

  lemma TimelyExamine(s: State, e: Event)
    requires Timely(s) && Enabled(s, e) && e.Examine?
    ensures Timely(Next(s, e))
  {
    ExamineEffect(s, e.code, e.pick);
    var t := Next(s, e);
    hide Next, Enabled, TimedOut;
    forall id | WillExpire(t, id) ensures WillExpire(s, id) {
      if LateInSnapshot(t, id) {
        var i :| 0 <= i < |t.pass.todo| && t.pass.todo[i].0 == id && LateEntry(t, t.pass.began, t.pass.todo[i]);
        assert s.pass.todo[i + 1] == t.pass.todo[i] && LateEntry(s, s.pass.began, s.pass.todo[i + 1]);
      } else if id !in s.pass.timedOut {
        assert s.pass.todo[0].0 == id && LateEntry(s, s.pass.began, s.pass.todo[0]);
      }
    }
  }

  lemma TimelyExpire(s: State, e: Event)
    requires Timely(s) && Enabled(s, e) && (e.EraseExited? || e.TakeTimedOut? || e.FinishTimedOut? || e.EndPass?)
    ensures Timely(Next(s, e))
  {
    ExpireEffect(s, e);
    var t := Next(s, e);
    hide Next, Enabled, TimedOut;
    assert e.TakeTimedOut? ==> s.pass.due[0] in DueIds(s.pass) && WillExpire(s, s.pass.due[0]);
    forall id | WillExpire(t, id) ensures WillExpire(s, id) {}
  }

  /** The state has moved on only in ways that expire no further entry and track none. */
  predicate NothingNewDue(s: State, t: State) {
    && t.pass == s.pass && t.tasks == s.tasks && t.running == s.running && t.now >= s.now
    && (forall h | h in t.live && h !in s.live ::
          && (s.pass.Examining? ==> forall i | 0 <= i < |s.pass.todo| :: s.pass.todo[i].1.handle != h)
          && (s.pass.Starting? ==> forall id | id in s.running :: s.running[id].handle != h))
  }

  lemma TimelyStays(s: State, t: State)
    requires Timely(s) && NothingNewDue(s, t)
    ensures Timely(t)
  {
    forall id | id in t.running && WillExpire(t, id) ensures HasReachedLimit(t, id) {
      if LateInSnapshot(t, id) {
        var i :| 0 <= i < |t.pass.todo| && t.pass.todo[i].0 == id && LateEntry(t, t.pass.began, t.pass.todo[i]);
        assert LateEntry(s, s.pass.began, s.pass.todo[i]);
      }
      assert WillExpire(s, id);
      LimitStaysReached(s.tasks[id], s.now, t.now, s.running[id]);
    }
    if s.pass.Finishing? { LimitStaysReached(s.tasks[s.pass.task], s.now, t.now, s.pass.proc); }
  }

  lemma OthersBringNothingDue(s: State, e: Event)
    requires HandlesOk(s) && Enabled(s, e) && ((LaunchEvent(e) && !e.Track?) || e.ProcessExits?)
    ensures NothingNewDue(s, Next(s, e))
  {
    hide LaunchesOk;
  }

  lemma TimelyStep(s: State, e: Event)
    requires Timely(s) && HandlesOk(s) && Enabled(s, e) && InTime(s, e)
    ensures Timely(Next(s, e))
  {
    var t := Next(s, e);
    hide Timely, HandlesOk, NothingNewDue;
    match e
    case BeginPass => TimelyBegin(s, e);
    case Snapshot(_) => TimelySnapshot(s, e);
    case Examine(_, _) => TimelyExamine(s, e);
    case Track(_) => TrackEffect(s, e);
    case SetClock(_) => OutsideEffect(s, e);
    case EditTasks(_) => OutsideEffect(s, e);
    case _ =>
      if PassEvent(e) {
        TimelyExpire(s, e);
      } else {
        OthersBringNothingDue(s, e);
        TimelyStays(s, t);
      }
  }

  lemma {:induction false} TimelyRun(s: State, es: seq<Event>)
    requires Timely(s) && HandlesOk(s) && InTimeRun(s, es)
    ensures Timely(After(s, es)) && HandlesOk(After(s, es))
    decreases |es|
  {
    hide Timely, HandlesOk, Next, Enabled, InTime;
    if es != [] {
      TimelyStep(s, es[0]);
      HandlesStep(s, es[0]);
      TimelyRun(Next(s, es[0]), es[1..]);
    }
  }

  lemma StartsTimely(tasks: map<TaskId, Task>, now: int, history: Table)
    ensures var s := Initial(tasks, now, history); Timely(s) && HandlesOk(s)
  {}

  /** In every run, however launches, edits and settings of the clock are interleaved with passes:
      if none of them makes an entry that the pass is going to take younger than its limit, no
      entry is taken, and so no process marked as timed out, before it has reached its limit. */
  lemma TimeoutNeverEarly(tasks: map<TaskId, Task>, now: int, history: Table, es: seq<Event>)
    requires InTimeRun(Initial(tasks, now, history), es)
    ensures !EarlyTake(After(Initial(tasks, now, history), es))
  {
    StartsTimely(tasks, now, history);
    TimelyRun(Initial(tasks, now, history), es);
  }

  /** A limit in seconds, by the resolution of start stamps: sixty for each minute, no earlier, and
      one more at the latest. */
  lemma LimitInSeconds(task: Task, now: int, proc: Proc)
    requires task.timeout.Some? && task.timeout.value > 0
    ensures TimedOut(task, now, proc) ==> Stamp(now) - Stamp(proc.start) >= 60 * task.timeout.value
    ensures Stamp(now) - Stamp(proc.start) > 60 * task.timeout.value ==> TimedOut(task, now, proc)
  {
    TimeoutAge(task, now, proc);
  }

  /** So in all these runs at least sixty seconds for each minute of its limit lie between the start
      of a process and its timeout. */
  lemma TimeoutInSeconds(tasks: map<TaskId, Task>, now: int, history: Table, es: seq<Event>)
    requires InTimeRun(Initial(tasks, now, history), es)
    ensures var s := After(Initial(tasks, now, history), es);
            s.pass.Finishing? ==>
              && s.pass.task in s.tasks && s.tasks[s.pass.task].timeout.Some?
              && var limit := s.tasks[s.pass.task].timeout.value;
                 limit > 0 ==> Stamp(s.now) - Stamp(s.pass.proc.start) >= 60 * limit
  {
    TimeoutNeverEarly(tasks, now, history, es);
    var s := After(Initial(tasks, now, history), es);
    if s.pass.Finishing? && s.tasks[s.pass.task].timeout.value > 0 {
      LimitInSeconds(s.tasks[s.pass.task], s.now, s.pass.proc);
    }
  }

  // ---- and no weaker rule would do ----

  lemma SortedExamine(s: State, e: Event)
    requires Sorted(s) && Enabled(s, e) && e.Examine?
    ensures Sorted(Next(s, e))
  {
    ExamineEffect(s, e.code, e.pick);
    var t := Next(s, e);
    hide Next, Enabled, TimedOut;
    assert forall i | 0 <= i < |t.pass.todo| :: t.pass.todo[i] == s.pass.todo[i + 1];
  }

  lemma SortedSnapshot(s: State, e: Event)
    requires Enabled(s, e) && e.Snapshot?
    ensures Sorted(Next(s, e))
  {
    SnapshotEffect(s, e);
    hide Next, Enabled;
    assert forall i | 0 <= i < |e.order| :: e.order[i] in Elements(e.order);
  }

  lemma SortedStep(s: State, e: Event)
    requires Sorted(s) && Enabled(s, e)
    ensures Sorted(Next(s, e))
  {
    if e.Examine? {
      SortedExamine(s, e);
    } else if e.Snapshot? {
      SortedSnapshot(s, e);
    } else {
      PassStays(s, e);
      hide Next, Enabled;
    }
  }

  lemma PassStays(s: State, e: Event)
    requires Enabled(s, e) && !e.Examine? && !e.Snapshot?
    ensures Next(s, e).pass == s.pass || !Next(s, e).pass.Examining?
  {}

  lemma {:induction false} SortedRun(s: State, es: seq<Event>)
    requires Sorted(s) && Runs(s, es)
    ensures Sorted(After(s, es))
    decreases |es|
  {
    hide Sorted, Next, Enabled;
    if es != [] {
      SortedStep(s, es[0]);
      SortedRun(Next(s, es[0]), es[1..]);
    }
  }

  predicate WorkerEvent(e: Event) {
    PassEvent(e) || e.BeginPass? || e.Snapshot?
  }

  predicate OnlyWorker(es: seq<Event>) {
    forall i | 0 <= i < |es| :: WorkerEvent(es[i])
  }

  /** A task that will expire and is tracked can be taken, by the worker alone. */
  lemma CanBeTaken(s: State, id: TaskId) returns (es: seq<Event>, t: State)
    requires Sorted(s) && WillExpire(s, id) && id in s.running
    ensures Leads(FREE, s, es, t) && OnlyWorker(es)
    ensures t.now == s.now && t.tasks == s.tasks && t.pass.Finishing? && t.pass.task == id && t.pass.proc == s.running[id]
  {
    if s.pass.Starting? {
      var order := Listed(s.running.Keys);
      var m := SnapshotNext(s, order);
      LeadsStep(FREE, s, Snapshot(order), m);
      SortedSnapshot(s, Snapshot(order));
      hide Leads, Next, Enabled, Obeys, TimedOut;
      assert id in Elements(order);
      var i :| 0 <= i < |order| && order[i] == id;
      assert m.pass.todo[i] == (id, s.running[id]) && LateEntry(m, m.pass.began, m.pass.todo[i]);
      var b;
      b, t := TakeLate(FREE, m, id);
      LeadsOn(FREE, s, [Snapshot(order)], m, b, t);
      es := [Snapshot(order)] + b;
    } else {
      es, t := TakeLate(FREE, s, id);
    }
  }

  lemma {:induction false} WorkerIsInTime(s: State, es: seq<Event>)
    requires Runs(s, es) && OnlyWorker(es)
    ensures InTimeRun(s, es)
    decreases |es|
  {
    hide Next, Enabled;
    if es != [] {
      assert WorkerEvent(es[0]) && forall i | 0 <= i < |es| - 1 :: es[1..][i] == es[i + 1];
      WorkerIsInTime(Next(s, es[0]), es[1..]);
    }
  }

  /** The worker alone can go on to an early take. */
  ghost predicate LeadsToEarlyTake(s: State) {
    exists es :: OnlyWorker(es) && Runs(s, es) && EarlyTake(After(s, es))
  }

  lemma WorkerStaysTimely(s: State, es: seq<Event>)
    requires Timely(s) && HandlesOk(s) && OnlyWorker(es) && Runs(s, es)
    ensures !EarlyTake(After(s, es))
  {
    WorkerIsInTime(s, es);
    TimelyRun(s, es);
  }

  /** A state from which the worker alone takes nothing too early is one in which nothing it is
      going to take is younger than its limit. */
  lemma TimelyIsExact(s: State)
    requires HandlesOk(s) && Sorted(s)
    ensures Timely(s) <==> !LeadsToEarlyTake(s)
  {
    if Timely(s) {
      hide Timely, HandlesOk, Sorted;
      forall es | OnlyWorker(es) && Runs(s, es) ensures !EarlyTake(After(s, es)) {
        WorkerStaysTimely(s, es);
      }
    } else if EarlyTake(s) {
      assert OnlyWorker([]) && Runs(s, []) && After(s, []) == s;
    } else {
      var id :| id in s.running && WillExpire(s, id) && !HasReachedLimit(s, id);
      hide HandlesOk, Sorted, WillExpire, TimedOut, Timely;
      var es, t := CanBeTaken(s, id);
      LeadsRuns(FREE, s, es, t);
      assert EarlyTake(t);
    }
  }

  /** The rule is exact: in any state that a run in time can reach, an event keeps it precisely if
      the worker alone, with nothing else happening, cannot then take an entry that has not
      reached its limit. */
  lemma TimeRuleIsExact(s: State, e: Event)
    requires Timely(s) && HandlesOk(s) && Sorted(s) && Enabled(s, e)
    ensures InTime(s, e) <==> !LeadsToEarlyTake(Next(s, e))
  {
    hide HandlesOk, Sorted, LeadsToEarlyTake;
    HandlesStep(s, e);
    SortedStep(s, e);
    TimelyIsExact(Next(s, e));
    if InTime(s, e) {
      TimelyStep(s, e);
    } else {
      RuleOutside(s, e);
    }
  }

  lemma RuleOutside(s: State, e: Event)
    requires Enabled(s, e) && !InTime(s, e)
    ensures !Timely(Next(s, e))
  {
    hide Timely;
    if e.Track? { TrackEffect(s, e); } else { OutsideEffect(s, e); }
    hide Next, Enabled;
  }

  // ---- what the rule asks of each kind of event ----

  /** Tracking a process keeps the rule exactly if the pass is not going to expire its task, or the
      limit of the task is not positive. */
  lemma TrackRuleIsExact(s: State, th: Thread)
    requires Timely(s) && HandlesOk(s) && Sorted(s) && Enabled(s, Track(th))
    ensures var t, id := Next(s, Track(th)), s.launches[th].task;
            && (InTime(s, Track(th)) <==> !LeadsToEarlyTake(t))
            && (InTime(s, Track(th)) <==>
                 (WillExpire(t, id) ==> id in s.tasks && s.tasks[id].timeout.Some? && s.tasks[id].timeout.value <= 0))
  {
    TimeRuleIsExact(s, Track(th));
    hide LeadsToEarlyTake, HandlesOk, Sorted;
    TrackedIsNew(s, th);
    hide Timely, WillExpire, Next, Enabled;
    TrackEffect(s, Track(th));
  }

  lemma TrackedIsNew(s: State, th: Thread)
    requires Timely(s) && Enabled(s, Track(th))
    ensures var t, id := TrackNext(s, th), s.launches[th].task;
            Timely(t) <==> (WillExpire(t, id) ==> id in s.tasks && s.tasks[id].timeout.Some? && s.tasks[id].timeout.value <= 0)
  {
    var t, l := TrackNext(s, th), s.launches[th];
    if l.task in s.tasks { NewbornIsLate(s.tasks[l.task], s.now, l.handle); }
    hide TimedOut, Next;
    forall id | id != l.task ensures WillExpire(t, id) ==> WillExpire(s, id) {
      if LateInSnapshot(t, id) {
        var i :| 0 <= i < |t.pass.todo| && t.pass.todo[i].0 == id && LateEntry(t, t.pass.began, t.pass.todo[i]);
        assert LateEntry(s, s.pass.began, s.pass.todo[i]);
      }
    }
  }

  /** While no pass is going on, and before one that has begun has taken its snapshot if the clock
      has not been set back since, nothing can break the rule. */
  lemma BetweenPasses(t: State)
    requires t.pass.Idle? || (t.pass.Starting? && t.pass.began <= t.now)
    ensures Timely(t)
  {
    forall id | id in t.running && WillExpire(t, id) ensures HasReachedLimit(t, id) {
      LimitStaysReached(t.tasks[id], t.pass.began, t.now, t.running[id]);
    }
  }

  /** The edit leaves the limits of all tasks that are tracked, or have just been taken, as they
      were. */
  predicate SameLimits(s: State, edited: map<TaskId, Task>) {
    && (forall id | id in s.running :: SameLimit(s.tasks, edited, id))
    && (s.pass.Finishing? ==> SameLimit(s.tasks, edited, s.pass.task))
  }

  predicate SameLimit(tasks: map<TaskId, Task>, edited: map<TaskId, Task>, id: TaskId) {
    (id in edited <==> id in tasks) && (id in tasks ==> edited[id].timeout == tasks[id].timeout)
  }

  lemma SameLimitsAreTimely(s: State, edited: map<TaskId, Task>)
    requires Timely(s) && HandlesOk(s) && SameLimits(s, edited)
    ensures Timely(EditTasksNext(s, edited))
  {
    var t := EditTasksNext(s, edited);
    hide CascadeDelete, RunningOk, LaunchesOk;
    forall id | id in t.running && WillExpire(t, id) ensures WillExpire(s, id) {
      assert SameLimit(s.tasks, edited, id);
      if LateInSnapshot(t, id) {
        var i :| 0 <= i < |t.pass.todo| && t.pass.todo[i].0 == id && LateEntry(t, t.pass.began, t.pass.todo[i]);
        assert LateEntry(s, s.pass.began, s.pass.todo[i]);
      }
    }
  }

  /** The clock is not set back while a pass is going on, and edits keep the rule; they do so by
      themselves between passes. */
  predicate Steady(s: State, e: Event) {
    match e
    case SetClock(time) => time >= s.now || s.pass.Idle?
    case EditTasks(edited) => Timely(EditTasksNext(s, edited))
    case _ => true
  }

  ghost predicate SteadyRun(s: State, es: seq<Event>)
    decreases |es|
  {
    Runs(s, es) && (es != [] ==> Steady(s, es[0]) && SteadyRun(Next(s, es[0]), es[1..]))
  }

  /** Simple ways to be steady: the clock goes on or no pass does; an edit comes between passes, or
      right after the beginning of one, or leaves the limits of tracked tasks alone. */
  lemma SteadyIsEasy(s: State, e: Event)
    requires Timely(s) && HandlesOk(s) && Begun(s)
    requires e.SetClock? ==> e.time >= s.now || s.pass.Idle?
    requires e.EditTasks? ==> s.pass.Idle? || s.pass.Starting? || SameLimits(s, e.edited)
    ensures Steady(s, e) && (e.SetClock? || e.EditTasks? ==> InTime(s, e))
  {
    if e.SetClock? { ClockIsTimely(s, e.time); }
    if e.EditTasks? {
      if SameLimits(s, e.edited) { SameLimitsAreTimely(s, e.edited); } else { BetweenPasses(EditTasksNext(s, e.edited)); }
    }
    hide Timely;
  }

  lemma ClockIsTimely(s: State, time: int)
    requires Timely(s) && (time >= s.now || s.pass.Idle?)
    ensures Timely(s.(now := time))
  {
    if time >= s.now { TimelyStays(s, s.(now := time)); }
  }

  /** The pass began in the past. */
  predicate Begun(s: State) {
    s.pass.Starting? || s.pass.Examining? ==> s.pass.began <= s.now
  }

  lemma BegunStep(s: State, e: Event)
    requires Begun(s) && Enabled(s, e) && Steady(s, e)
    ensures Begun(Next(s, e))
  {
    hide Timely;
    BeganStays(s, e);
    hide Next, Enabled;
  }

  lemma BeganStays(s: State, e: Event)
    requires Enabled(s, e)
    ensures var t := Next(s, e);
            && (e.SetClock? ==> t == s.(now := e.time)) && (!e.SetClock? ==> t.now == s.now)
            && (t.pass.Starting? ==> if s.pass.Starting? then t.pass == s.pass else t.pass.began == t.now)
            && (t.pass.Examining? ==> (s.pass.Starting? || s.pass.Examining?) && t.pass.began == s.pass.began)
  {}

  /** The worker's own tracking never coincides with a pass, and launches kept apart never track
      what the pass is going to expire. */
  lemma KeptApartIsInTime(g: Rules, s: State, e: Event)
    requires Timely(s) && Begun(s) && Enabled(s, e) && Steady(s, e) && Obeys(g, s, e)
    requires g.solo || (g.apart && AllApart(s))
    ensures InTime(s, e)
  {
    if e.Track? {
      if g.solo { TrackEffect(s, e); } else { ApartTrackIsInTime(s, e); }
    } else if e.SetClock? {
      ClockIsTimely(s, e.time);
    }
  }

  lemma ApartTrackIsInTime(s: State, e: Event)
    requires AllApart(s) && Timely(s) && Begun(s) && Enabled(s, e) && e.Track?
    ensures InTime(s, e)
  {
    TrackEffect(s, e);
    var id := s.launches[e.thread].task;
    assert Engaged(s, e.thread) && id !in Pending(s.pass);
    if s.pass.Examining? { TodoIdsAt(s.pass.todo); }
    hide AllApart, Next;
    var t := TrackNext(s, e.thread);
    if t.pass.Starting? { BetweenPasses(t); } else { TrackedIsNew(s, e.thread); }
  }

  lemma {:induction false} KeptApartRun(g: Rules, s: State, es: seq<Event>)
    requires Timely(s) && Begun(s) && HandlesOk(s) && ObeyingRun(g, s, es) && SteadyRun(s, es)
    requires g.solo || (g.apart && AllApart(s))
    ensures InTimeRun(s, es)
    decreases |es|
  {
    hide AllApart, HandlesOk, Timely, Begun, Next, Enabled, Steady, InTime, Obeys, Apart;
    if es != [] {
      var e := es[0];
      KeptApartIsInTime(g, s, e);
      TimelyStep(s, e);
      BegunStep(s, e);
      HandlesStep(s, e);
      if !g.solo {
        ObeysApart(g, s, e);
        ApartStep(s, e);
      }
      KeptApartRun(g, Next(s, e), es[1..]);
    }
  }

  lemma ObeysApart(g: Rules, s: State, e: Event)
    requires g.apart && Obeys(g, s, e)
    ensures Apart(s, e)
  {}

  /** Keeping launches and passes apart is enough: no process is marked as timed out before it
      has reached its limit, whatever exits and however far the clock advances during a pass. */
  lemma ApartTimeouts(tasks: map<TaskId, Task>, now: int, history: Table, es: seq<Event>)
    requires Stored(tasks, history)
    requires ObeyingRun(APART, Initial(tasks, now, history), es) && SteadyRun(Initial(tasks, now, history), es)
    ensures !EarlyTake(After(Initial(tasks, now, history), es))
  {
    StartsApart(tasks, now, history);
    StartsTimely(tasks, now, history);
    KeptApartRun(APART, Initial(tasks, now, history), es);
    TimeoutNeverEarly(tasks, now, history, es);
  }

  /** So is launching from the worker alone, even tasks that do not wait. */
  lemma SoloTimeouts(tasks: map<TaskId, Task>, now: int, history: Table, es: seq<Event>)
    requires ObeyingRun(SOLO, Initial(tasks, now, history), es) && SteadyRun(Initial(tasks, now, history), es)
    ensures !EarlyTake(After(Initial(tasks, now, history), es))
  {
    StartsTimely(tasks, now, history);
    KeptApartRun(SOLO, Initial(tasks, now, history), es);
    TimeoutNeverEarly(tasks, now, history, es);
  }

  // ---- not too late ----

  /** Entry `id` of the snapshot `snap` is still tracked, although when the snapshot was taken
      its process had exited or had, at the beginning of the pass, reached its limit. */
  predicate Overstays(s: State, snap: map<TaskId, Proc>, began: int, alive: set<Handle>, id: TaskId) {
    && id in snap && id in s.running && s.running[id] == snap[id] && id in s.tasks
    && (snap[id].handle !in alive || TimedOut(s.tasks[id], began, snap[id]))
  }

  predicate StillAhead(s: State, snap: map<TaskId, Proc>, id: TaskId) {
    match s.pass
    case Examining(_, todo, exited, timedOut) =>
      id in exited || id in timedOut || exists i | 0 <= i < |todo| :: todo[i].0 == id && id in snap && todo[i].1 == snap[id]
    case Expiring(due) => id in due
    case Finishing(_, _, due) => id in due
    case _ => false
  }

  predicate InSnapshot(snap: map<TaskId, Proc>, h: Handle) {
    exists id | id in snap :: snap[id].handle == h
  }

  predicate FromSnapshot(todo: seq<(TaskId, Proc)>, snap: map<TaskId, Proc>) {
    forall i | 0 <= i < |todo| :: todo[i].0 in snap && snap[todo[i].0] == todo[i].1
  }

  /** The pass that took the snapshot is going on or over, and has every overstaying entry
      still ahead. */
  ghost predicate Catching(s: State, snap: map<TaskId, Proc>, began: int, alive: set<Handle>) {
    && !s.pass.Starting? && (s.pass.Examining? ==> s.pass.began == began && FromSnapshot(s.pass.todo, snap))
    && (forall id | id in snap :: snap[id].handle in s.issued)
    && (forall h | h in s.live && InSnapshot(snap, h) :: h in alive)
    && (forall th | th in s.launches && s.launches[th].Created? :: !InSnapshot(snap, s.launches[th].handle))
    && (forall id | Overstays(s, snap, began, alive, id) :: StillAhead(s, snap, id))
  }

  lemma CatchingStarts(s: State, e: Event)
    requires HandlesOk(s) && Enabled(s, e) && e.Snapshot?
    ensures Catching(Next(s, e), s.running, s.pass.began, s.live)
  {
    var t := Next(s, e);
    hide TimedOut;
    forall id | id in s.running ensures StillAhead(t, s.running, id) {
      assert id in Elements(e.order);
      var i :| 0 <= i < |e.order| && e.order[i] == id;
      assert t.pass.todo[i] == (id, s.running[id]);
    }
    forall th | th in s.launches && s.launches[th].Created? ensures !InSnapshot(s.running, s.launches[th].handle) {
      assert !IsTracked(s, s.launches[th].handle);
    }
  }

  lemma CatchingExamine(s: State, e: Event, snap: map<TaskId, Proc>, began: int, alive: set<Handle>)
    requires Catching(s, snap, began, alive) && Enabled(s, e) && e.Examine?
    ensures Catching(Next(s, e), snap, began, alive)
  {
    ExamineEffect(s, e.code, e.pick);
    var t := Next(s, e);
    hide Next, Enabled, TimedOut;
    var (x, proc) := s.pass.todo[0];
    assert FromSnapshot(t.pass.todo, snap) by {
      assert forall i | 0 <= i < |t.pass.todo| :: t.pass.todo[i] == s.pass.todo[i + 1];
    }
    forall id | Overstays(t, snap, began, alive, id) ensures StillAhead(t, snap, id) {
      assert StillAhead(s, snap, id);
      if id !in s.pass.exited && id !in s.pass.timedOut {
        var i :| 0 <= i < |s.pass.todo| && s.pass.todo[i].0 == id && s.pass.todo[i].1 == snap[id];
        if i > 0 {
          assert t.pass.todo[i - 1] == s.pass.todo[i];
        } else {
          assert InSnapshot(snap, proc.handle);
        }
      }
    }
  }

  lemma CatchingExpire(s: State, e: Event, snap: map<TaskId, Proc>, began: int, alive: set<Handle>)
    requires Catching(s, snap, began, alive) && Enabled(s, e)
    requires e.EraseExited? || e.TakeTimedOut? || e.FinishTimedOut? || e.EndPass?
    ensures Catching(Next(s, e), snap, began, alive)
  {
    ExpireEffect(s, e);
    var t := Next(s, e);
    hide Next, Enabled, TimedOut;
    forall id | Overstays(t, snap, began, alive, id) ensures StillAhead(t, snap, id) {
      assert Overstays(s, snap, began, alive, id);
    }
  }

  lemma CatchingOther(s: State, e: Event, snap: map<TaskId, Proc>, began: int, alive: set<Handle>)
    requires Catching(s, snap, began, alive) && Enabled(s, e)
    requires LaunchEvent(e) || e.ProcessExits? || e.SetClock?
    ensures Catching(Next(s, e), snap, began, alive)
  {
    var t := Next(s, e);
    hide TimedOut, Update, Stamp;
    assert t.pass == s.pass && t.tasks == s.tasks;
    assert e.Track? ==> !InSnapshot(snap, s.launches[e.thread].handle);
    forall id | Overstays(t, snap, began, alive, id) ensures StillAhead(t, snap, id) {
      assert InSnapshot(snap, snap[id].handle);
      assert Overstays(s, snap, began, alive, id);
    }
  }

  /** After the edit no entry overstays that the pass has already gone past. */
  predicate KeepsCaught(s: State, edited: map<TaskId, Task>, snap: map<TaskId, Proc>, began: int, alive: set<Handle>) {
    forall id | id in snap && Overstays(EditTasksNext(s, edited), snap, began, alive, id) :: StillAhead(s, snap, id)
  }

  /** The pass goes on to its end, and edits keep what it has caught. */
  ghost predicate OnePass(s: State, es: seq<Event>, snap: map<TaskId, Proc>, began: int, alive: set<Handle>)
    decreases |es|
  {
    && Runs(s, es)
    && (es != [] ==>
         && !es[0].BeginPass?
         && (es[0].EditTasks? ==> KeepsCaught(s, es[0].edited, snap, began, alive))
         && OnePass(Next(s, es[0]), es[1..], snap, began, alive))
  }

  lemma CatchingEdit(s: State, e: Event, snap: map<TaskId, Proc>, began: int, alive: set<Handle>)
    requires Catching(s, snap, began, alive) && Enabled(s, e) && e.EditTasks? && KeepsCaught(s, e.edited, snap, began, alive)
    ensures Catching(Next(s, e), snap, began, alive)
  {
    OutsideEffect(s, e);
    hide Next, Enabled, TimedOut, CascadeDelete;
  }

  lemma {:induction false} CatchingRun(s: State, es: seq<Event>, snap: map<TaskId, Proc>, began: int, alive: set<Handle>)
    requires Catching(s, snap, began, alive) && OnePass(s, es, snap, began, alive)
    ensures Catching(After(s, es), snap, began, alive)
    decreases |es|
  {
    if es != [] {
      var e := es[0];
      NoSecondSnapshot(s, e, snap, began, alive);
      hide Catching, Next, Enabled, KeepsCaught;
      if e.Examine? { CatchingExamine(s, e, snap, began, alive); }
      else if PassEvent(e) { CatchingExpire(s, e, snap, began, alive); }
      else if e.EditTasks? { CatchingEdit(s, e, snap, began, alive); }
      else { CatchingOther(s, e, snap, began, alive); }
      CatchingRun(Next(s, e), es[1..], snap, began, alive);
    }
  }

  lemma NoSecondSnapshot(s: State, e: Event, snap: map<TaskId, Proc>, began: int, alive: set<Handle>)
    requires Catching(s, snap, began, alive) && Enabled(s, e)
    ensures !e.Snapshot?
  {}

  /** However launches and such edits are interleaved with a pass: when it is over, no entry of its
      snapshot is left whose process had exited when the snapshot was taken, or had reached its
      limit when the pass began. */
  lemma PassCatchesAll(s: State, order: seq<TaskId>, es: seq<Event>, id: TaskId)
    requires HandlesOk(s) && Enabled(s, Snapshot(order))
    requires OnePass(Next(s, Snapshot(order)), es, s.running, s.pass.began, s.live)
    requires After(Next(s, Snapshot(order)), es).pass.Idle?
    ensures !Overstays(After(Next(s, Snapshot(order)), es), s.running, s.pass.began, s.live, id)
  {
    var e := Snapshot(order);
    CatchingStarts(s, e);
    CatchingRun(Next(s, e), es, s.running, s.pass.began, s.live);
    hide Next, Enabled, Overstays;
  }

  /** What such a pass leaves of its snapshot, in seconds. */
  lemma PassCatchesInSeconds(s: State, order: seq<TaskId>, es: seq<Event>, id: TaskId)
    requires HandlesOk(s) && Enabled(s, Snapshot(order))
    requires OnePass(Next(s, Snapshot(order)), es, s.running, s.pass.began, s.live)
    requires After(Next(s, Snapshot(order)), es).pass.Idle?
    ensures var t := After(Next(s, Snapshot(order)), es);
            id in s.running && id in t.running && t.running[id] == s.running[id] && id in t.tasks ==>
              && s.running[id].handle in s.live
              && (t.tasks[id].timeout.Some? && t.tasks[id].timeout.value > 0 ==>
                   Stamp(s.pass.began) - Stamp(s.running[id].start) <= 60 * t.tasks[id].timeout.value)
  {
    PassCatchesAll(s, order, es, id);
    var t := After(Next(s, Snapshot(order)), es);
    if id in s.running && id in t.tasks && t.tasks[id].timeout.Some? && t.tasks[id].timeout.value > 0 {
      LimitInSeconds(t.tasks[id], s.pass.began, s.running[id]);
    }
    hide Next, Enabled;
  }

  /** Entry `id` of the snapshot is still tracked, and the pass has gone past it. */
  predicate PassedBy(s: State, snap: map<TaskId, Proc>, id: TaskId) {
    id in snap && id in s.running && s.running[id] == snap[id] && !StillAhead(s, snap, id)
  }

  lemma PassedByStep(s: State, e: Event, snap: map<TaskId, Proc>, began: int, alive: set<Handle>, id: TaskId)
    requires PassedBy(s, snap, id) && Enabled(s, e) && PassEvent(e)
    requires s.pass.Examining? ==> FromSnapshot(s.pass.todo, snap)
    ensures PassedBy(Next(s, e), snap, id)
    ensures Next(s, e).pass.Examining? ==> FromSnapshot(Next(s, e).pass.todo, snap)
  {
    if e.Examine? {
      ExamineEffect(s, e.code, e.pick);
      var t := Next(s, e);
      assert forall i | 0 <= i < |t.pass.todo| :: t.pass.todo[i] == s.pass.todo[i + 1];
    } else {
      ExpireEffect(s, e);
    }
    hide Next, Enabled, TimedOut, SameOwners;
  }

  lemma {:induction false} PassedByRun(s: State, es: seq<Event>, snap: map<TaskId, Proc>, began: int, alive: set<Handle>,
                                       id: TaskId)
    requires PassedBy(s, snap, id) && Runs(s, es) && OnlyPass(es)
    requires s.pass.Examining? ==> FromSnapshot(s.pass.todo, snap)
    ensures PassedBy(After(s, es), snap, id) && After(s, es).tasks == s.tasks
    decreases |es|
  {
    hide PassedBy, FromSnapshot, Next, Enabled;
    if es != [] {
      assert PassEvent(es[0]) && forall i | 0 <= i < |es| - 1 :: es[1..][i] == es[i + 1];
      PassedByStep(s, es[0], snap, began, alive, id);
      PassUntouched(s, es[0]);
      PassedByRun(Next(s, es[0]), es[1..], snap, began, alive, id);
    }
  }

  /** The worker alone can complete the pass and leave an entry that overstays. */
  ghost predicate CanMiss(s: State, snap: map<TaskId, Proc>, began: int, alive: set<Handle>) {
    exists es, id :: OnlyPass(es) && Runs(s, es) && After(s, es).pass.Idle? && Overstays(After(s, es), snap, began, alive, id)
  }

  /** The rule about edits during a pass is exact: an edit keeps it precisely if the worker cannot
      then complete the pass and leave an entry behind. */
  lemma CatchRuleIsExact(s: State, edited: map<TaskId, Task>, snap: map<TaskId, Proc>, began: int, alive: set<Handle>)
    requires Catching(s, snap, began, alive)
    ensures KeepsCaught(s, edited, snap, began, alive) <==> !CanMiss(EditTasksNext(s, edited), snap, began, alive)
  {
    var e, t := EditTasks(edited), EditTasksNext(s, edited);
    OutsideEffect(s, e);
    if KeepsCaught(s, edited, snap, began, alive) {
      CatchingEdit(s, e, snap, began, alive);
      hide Catching, Overstays, Next, Enabled;
      forall es, id | OnlyPass(es) && Runs(t, es) && After(t, es).pass.Idle?
        ensures !Overstays(After(t, es), snap, began, alive, id)
      {
        OnlyPassIsOnePass(t, es, snap, began, alive);
        CatchingRun(t, es, snap, began, alive);
        NoneAheadWhenIdle(After(t, es), snap, began, alive, id);
      }
    } else {
      var id :| id in snap && Overstays(t, snap, began, alive, id) && !StillAhead(s, snap, id);
      assert PassedBy(t, snap, id);
      hide Next, Enabled, TimedOut, Leads, Obeys, PassedBy;
      var es, m := CompletePass(FREE, t);
      LeadsRuns(FREE, t, es, m);
      PassedByRun(t, es, snap, began, alive, id);
      MissedForGood(t, m, snap, began, alive, id);
    }
  }

  lemma MissedForGood(s: State, t: State, snap: map<TaskId, Proc>, began: int, alive: set<Handle>, id: TaskId)
    requires Overstays(s, snap, began, alive, id) && PassedBy(t, snap, id) && t.tasks == s.tasks
    ensures Overstays(t, snap, began, alive, id)
  {}

  lemma NoneAheadWhenIdle(s: State, snap: map<TaskId, Proc>, began: int, alive: set<Handle>, id: TaskId)
    requires Catching(s, snap, began, alive) && s.pass.Idle?
    ensures !Overstays(s, snap, began, alive, id)
  {
    hide Overstays;
  }

  lemma {:induction false} OnlyPassIsOnePass(s: State, es: seq<Event>, snap: map<TaskId, Proc>, began: int, alive: set<Handle>)
    requires Runs(s, es) && OnlyPass(es)
    ensures OnePass(s, es, snap, began, alive)
    decreases |es|
  {
    hide Next, Enabled;
    if es != [] {
      assert PassEvent(es[0]) && forall i | 0 <= i < |es| - 1 :: es[1..][i] == es[i + 1];
      OnlyPassIsOnePass(Next(s, es[0]), es[1..], snap, began, alive);
    }
  }
}
