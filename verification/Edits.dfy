/** Which edits of tasks keep one process per task: exactly the safe ones, whatever the state. */
module Edits {
  import opened Common
  import opened History
  import opened Engine
  import opened Effects
  import opened Handles
  import opened Discipline
  import opened LiveProcesses
  import opened Steering
  import opened Overruns

  /** What is known of the states that runs under the rules with safe edits reach. */
  ghost predicate Guarded(s: State) {
    AllApart(s) && NoOrphans(s) && LateWillBeKilled(s)
  }

  /** Two processes of a task can be alive later, although the rules are kept and all edits to come
      are safe. */
  ghost predicate CanDouble(s: State) {
    exists es :: ObeyingRun(APART, s, es) && SafeEdits(s, es) && !AtMostOneEach(After(s, es))
  }

  // ---- after a safe edit ----

  lemma NeverDoubles(s: State, es: seq<Event>)
    requires Guarded(s) && ObeyingRun(APART, s, es) && SafeEdits(s, es)
    ensures AtMostOneEach(After(s, es))
  {
    hide AllApart, NoOrphans, LateWillBeKilled, AtMostOneEach, Next, Enabled;
    KillRun(s, es);
    OrphanRun(Rules(true, false, true, false), s, es);
    OneEach(After(s, es));
  }

  lemma SafeEditGuards(s: State, edited: map<TaskId, Task>)
    requires Guarded(s) && SafeEdit(s, edited)
    ensures Guarded(EditTasksNext(s, edited))
  {
    var e := EditTasks(edited);
    hide AllApart, NoOrphans, LateWillBeKilled, SafeEdit;
    ApartStep(s, e);
    OrphanOtherStep(s, e);
    KillStep(s, e);
    OutsideEffect(s, e);
  }

  lemma StartsGuarded(tasks: map<TaskId, Task>, now: int, history: Table)
    requires Stored(tasks, history) && KillSafe(tasks)
    ensures Guarded(Initial(tasks, now, history))
  {
    StartsApart(tasks, now, history);
    NoneOrphaned(tasks, now, history);
    hide AllApart, NoOrphans;
  }

  lemma GuardedStep(s: State, e: Event)
    requires Guarded(s) && Enabled(s, e) && Apart(s, e) && (e.EditTasks? ==> SafeEdit(s, e.edited))
    ensures Guarded(Next(s, e))
  {
    hide AllApart, NoOrphans, LateWillBeKilled, Apart, SafeEdit;
    ApartStep(s, e);
    KillStep(s, e);
    OrphanStep(s, e);
  }

  lemma {:induction false} GuardedRun(s: State, es: seq<Event>)
    requires Guarded(s) && ObeyingRun(APART, s, es) && SafeEdits(s, es)
    ensures Guarded(After(s, es))
    decreases |es|
  {
    hide Guarded, Next, Enabled, Apart, SafeEdit;
    if es != [] {
      GuardedStep(s, es[0]);
      GuardedRun(Next(s, es[0]), es[1..]);
    }
  }

  // ---- runs put together ----

  lemma {:induction false} SafeEditsConcat(s: State, a: seq<Event>, b: seq<Event>)
    requires Runs(s, a) && Runs(s, a + b)
    ensures Runs(After(s, a), b)
    ensures SafeEdits(s, a + b) <==> SafeEdits(s, a) && SafeEdits(After(s, a), b)
    decreases |a|
  {
    hide Next, Enabled, SafeEdit;
    if a == [] {
      assert a + b == b;
    } else {
      assert (a + b)[1..] == a[1..] + b;
      SafeEditsConcat(Next(s, a[0]), a[1..], b);
    }
  }

  lemma {:induction false} ApartLeads(s: State, es: seq<Event>, t: State)
    requires AllApart(s) && Leads(APART, s, es, t)
    ensures AllApart(t)
    decreases |es|
  {
    hide AllApart, Next, Enabled, Apart;
    if es != [] {
      ApartStep(s, es[0]);
      ApartLeads(Next(s, es[0]), es[1..], t);
    }
  }

  lemma DoublesLater(s: State, es: seq<Event>, t: State)
    requires Leads(APART, s, es, t) && NoEdits(es) && !AtMostOneEach(t)
    ensures CanDouble(s)
  {
    hide Next, Enabled, Obeys, AtMostOneEach, SafeEdits;
    LeadsRuns(APART, s, es, t);
    NoEditsAreSafe(s, es);
  }

  // ---- processes that nobody kills ----

  /** A live process of the task. */
  predicate Lives(s: State, id: TaskId, h: Handle) {
    h in s.live && h in s.origin && s.origin[h].task == id
  }

  lemma PassSpares(s: State, e: Event, id: TaskId, h: Handle)
    requires HandlesOk(s) && Enabled(s, e) && PassEvent(e) && Lives(s, id, h) && !WillKill(s.tasks, id)
    ensures Lives(Next(s, e), id, h)
  {
    if e.Examine? { ExamineEffect(s, e.code, e.pick); } else { ExpireEffect(s, e); }
    hide Next, Enabled, SameOwners, RunningOk, LaunchesOk;
  }

  lemma {:induction false} PassRunSpares(s: State, es: seq<Event>, id: TaskId, h: Handle)
    requires HandlesOk(s) && Runs(s, es) && OnlyPass(es) && Lives(s, id, h) && !WillKill(s.tasks, id)
    ensures Lives(After(s, es), id, h)
    decreases |es|
  {
    hide HandlesOk, Next, Enabled, Lives;
    if es != [] {
      var e := es[0];
      assert PassEvent(e) && forall i | 0 <= i < |es| - 1 :: es[1..][i] == es[i + 1];
      PassSpares(s, e, id, h);
      HandlesStep(s, e);
      PassUntouched(s, e);
      PassRunSpares(Next(s, e), es[1..], id, h);
    }
  }

  lemma LeadsSpares(s: State, es: seq<Event>, t: State, id: TaskId)
    requires HandlesOk(s) && Leads(APART, s, es, t) && OnlyPass(es) && !WillKill(s.tasks, id)
    ensures forall h | Lives(s, id, h) :: Lives(t, id, h)
  {
    hide HandlesOk, Next, Enabled, Obeys, Lives;
    LeadsRuns(APART, s, es, t);
    forall h | Lives(s, id, h) ensures Lives(t, id, h) { PassRunSpares(s, es, id, h); }
  }

  // ---- a task with a limit that does not kill ----

  /** Between passes, and with nothing left to be written back. */
  predicate Resting(s: State, id: TaskId) {
    s.pass.Idle? && TrackedThreads(s) == {} && !InProgress(s, id)
  }

  /** A launch of the task that has not tracked its process yet is brought to an end. */
  lemma Clear(s: State, id: TaskId) returns (es: seq<Event>, t: State)
    requires AllApart(s) && s.pass.Idle? && TrackedThreads(s) == {}
    ensures Leads(APART, s, es, t) && NoEdits(es) && t.tasks == s.tasks && Resting(t, id)
  {
    if !InProgress(s, id) {
      LeadsNowhere(APART, s);
      return [], s;
    }
    var th :| th in s.launches && s.launches[th].task == id && Engaged(s, th);
    assert s.launches[th].Begun? || s.launches[th].Created? by { assert th !in TrackedThreads(s); }
    if s.launches[th].Begun? {
      t := Next(s, CreateFails(th));
      LeadsStep(APART, s, CreateFails(th), t);
      es := [CreateFails(th)];
    } else {
      es, t := TrackAndEnd(s, th);
    }
    OthersElsewhere(s, t, th, id);
  }

  lemma TrackAndEnd(s: State, th: Thread) returns (es: seq<Event>, t: State)
    requires th in s.launches && s.launches[th].Created?
    ensures Leads(APART, s, es, t) && NoEdits(es) && t.tasks == s.tasks && t.pass == s.pass
    ensures t.launches == s.launches - {th} && t.history.Keys == s.history.Keys
  {
    var m := Next(s, Track(th));
    LeadsStep(APART, s, Track(th), m);
    t := Next(m, EndLaunch(th));
    LeadsStep(APART, m, EndLaunch(th), t);
    hide Leads, Next, Enabled, Obeys;
    LeadsOn(APART, s, [Track(th)], m, [EndLaunch(th)], t);
    es := [Track(th)] + [EndLaunch(th)];
  }

  lemma OthersElsewhere(s: State, t: State, th: Thread, id: TaskId)
    requires LaunchesApart(s) && s.pass.Idle? && t.pass == s.pass && TrackedThreads(s) == {}
    requires th in s.launches && s.launches[th].task == id && Engaged(s, th)
    requires forall x | x in t.launches :: (x == th && t.launches[x].Refused?) || (x != th && x in s.launches && t.launches[x] == s.launches[x])
    requires t.history.Keys == s.history.Keys
    ensures Resting(t, id)
  {
    forall x | x in t.launches ensures !t.launches[x].Tracked? { assert x !in TrackedThreads(s); }
    assert TrackedThreads(t) == {};
  }

  /** Nothing but the clock, processes and the worker has gone on. */
  predicate OnlyWorked(s: State, t: State) {
    t.launches == s.launches && t.tasks == s.tasks && t.issued == s.issued && t.origin == s.origin
    && t.usedRows == s.usedRows && t.history.Keys == s.history.Keys
  }

  lemma UntouchedIsWork(s: State, t: State)
    requires Untouched(s, t)
    ensures OnlyWorked(s, t)
  {}

  lemma StillResting(s: State, t: State, id: TaskId)
    requires Resting(s, id) && OnlyWorked(s, t) && t.pass.Idle?
    ensures Resting(t, id)
  {
    SameTracked(s, t);
  }

  /** A pass begins when the process has reached its limit, and takes its snapshot. */
  lemma BeginLate(s: State, id: TaskId) returns (es: seq<Event>, t: State)
    requires Resting(s, id) && UnsafeTask(s.tasks, id) && id in s.running
    ensures Leads(APART, s, es, t) && NoEdits(es) && OnlyWorked(s, t) && t.live == s.live && t.running == s.running
    ensures t.pass.Examining? && t.pass.exited == [] && t.pass.timedOut == []
    ensures TimedOut(s.tasks[id], t.pass.began, s.running[id])
    ensures exists i :: 0 <= i < |t.pass.todo| && t.pass.todo[i] == (id, s.running[id])
  {
    hide TimedOut;
    var later := Limit(s.tasks[id], s.running[id].start);
    LimitIsReached(s.tasks[id], s.running[id].start, s.running[id].handle);
    var s1 := s.(now := later);
    ClockEffect(APART, s, later);
    PassBegins(APART, s1);
    var s2 := s1.(pass := Starting(later));
    SameTracked(s, s2);
    var order := Listed(s.running.Keys);
    t := TakeSnapshot(APART, s2, order);
    assert id in Elements(order);
    var i :| 0 <= i < |order| && order[i] == id;
    assert t.pass.todo[i] == (id, s.running[id]);
    hide Leads, Next, Enabled, Obeys;
    LeadsOn(APART, s, [SetClock(later)], s1, [BeginPass], s2);
    LeadsOn(APART, s, [SetClock(later)] + [BeginPass], s2, [Snapshot(order)], t);
    es := [SetClock(later)] + [BeginPass] + [Snapshot(order)];
  }

  /** Up to the erasure of what has exited: the entry of the task is then erased or about to be
      taken. */
  lemma ExamineAndErase(s: State, id: TaskId, i: nat) returns (es: seq<Event>, t: State)
    requires s.pass.Examining? && i < |s.pass.todo| && id in s.tasks
    requires s.pass.todo[i].0 == id && TimedOut(s.tasks[id], s.pass.began, s.pass.todo[i].1)
    ensures Leads(APART, s, es, t) && OnlyPass(es) && Untouched(s, t) && t.pass.Expiring?
    ensures id in t.running ==> id in t.pass.due
  {
    hide Leads, Next, Enabled, Obeys, TimedOut, Untouched;
    var a, m := ExamineRest(APART, s);
    assert s.pass.todo[i].1.handle in s.live ==> LateEntry(s, s.pass.began, s.pass.todo[i]);
    EraseEffect(m);
    t := Next(m, EraseExited);
    PassEventObeys(APART, m, EraseExited);
    LeadsStep(APART, m, EraseExited, t);
    UntouchedOn(s, m, t);
    LeadsOn(APART, s, a, m, [EraseExited], t);
    es := a + [EraseExited];
  }

  /** Such a pass removes the entry of the task, whether its process is alive or not. */
  lemma PassRemoves(s: State, id: TaskId, i: nat) returns (es: seq<Event>, t: State)
    requires AllApart(s) && s.pass.Examining? && i < |s.pass.todo| && id in s.tasks
    requires s.pass.todo[i].0 == id && TimedOut(s.tasks[id], s.pass.began, s.pass.todo[i].1)
    ensures Leads(APART, s, es, t) && OnlyPass(es) && Untouched(s, t) && t.pass.Idle? && id !in t.running
  {
    hide Leads, Next, Enabled, Obeys, TimedOut, AllApart;
    var n;
    es, n := ExamineAndErase(s, id, i);
    ApartLeads(s, es, n);
    var q := n;
    if id in n.running {
      var b;
      b, q := ExpireTo(APART, n, id);
      LeadsOn(APART, s, es, n, b, q);
      es := es + b;
      UntouchedOn(s, n, q);
      ApartLeads(n, b, q);
      TakenIsGone(q);
    }
    var c;
    c, t := CompletePass(APART, q);
    LeadsOn(APART, s, es, q, c, t);
    es := es + c;
    UntouchedOn(s, q, t);
  }

  lemma TakenIsGone(s: State)
    requires AllApart(s) && s.pass.Finishing?
    ensures s.pass.task !in s.running
  {}

  /** The task is brought to be untracked, and its live processes stay alive. */
  lemma Drop(s: State, id: TaskId) returns (es: seq<Event>, t: State)
    requires AllApart(s) && Resting(s, id) && UnsafeTask(s.tasks, id)
    ensures Leads(APART, s, es, t) && NoEdits(es) && OnlyWorked(s, t) && Resting(t, id) && AllApart(t)
    ensures id !in t.running && forall h | Lives(s, id, h) :: Lives(t, id, h)
  {
    if id !in s.running {
      LeadsNowhere(APART, s);
      return [], s;
    }
    hide Leads, Next, Enabled, Obeys, AllApart, TimedOut, Resting;
    var a, m := BeginLate(s, id);
    ApartLeads(s, a, m);
    var i :| 0 <= i < |m.pass.todo| && m.pass.todo[i] == (id, s.running[id]);
    var b;
    b, t := PassRemoves(m, id, i);
    LeadsOn(APART, s, a, m, b, t);
    es := a + b;
    OnlyPassIsNoEdit(b);
    ApartLeads(m, b, t);
    UntouchedIsWork(m, t);
    StillResting(s, t, id);
    ApartHandles(m);
    LeadsSpares(m, b, t, id);
  }

  lemma ApartHandles(s: State)
    requires AllApart(s)
    ensures HandlesOk(s)
  {}

  lemma LaunchAnew(s: State, id: TaskId) returns (h: Handle, es: seq<Event>, t: State)
    requires AllApart(s) && Resting(s, id) && id in s.tasks && id !in s.running
    ensures Leads(APART, s, es, t) && NoEdits(es) && t.tasks == s.tasks && Resting(t, id) && AllApart(t)
    ensures h !in s.origin && Lives(t, id, h) && forall x | Lives(s, id, x) :: Lives(t, id, x)
  {
    var th := FreshNumber(s.launches.Keys);
    var row := FreshNumber(s.usedRows);
    assert Obeys(APART, s, BeginLaunch(th, id, row));
    assert s.origin.Keys == s.issued;
    UsedRowsKnown(s);
    hide Leads, Next, Enabled, Obeys, AllApart;
    h, es, t := WholeLaunch(APART, s, th, id, row);
    ApartLeads(s, es, t);
    SameTracked(s, t);
    assert forall x | x in t.launches && Engaged(t, x) :: Engaged(s, x);
  }

  lemma UsedRowsKnown(s: State)
    requires AllApart(s)
    ensures s.history.Keys <= s.usedRows && forall th | th in s.launches :: s.launches[th].row in s.usedRows
  {}

  /** From any state under the rules, a task with a limit that does not kill can be brought to have
      two live processes. */
  lemma UnsafeTaskDoubles(s: State, id: TaskId)
    requires AllApart(s) && UnsafeTask(s.tasks, id)
    ensures CanDouble(s)
  {
    hide Leads, Next, Enabled, Obeys, AllApart, Resting, AtMostOneEach, CanDouble;
    var a, s1 := Quiet(APART, s);
    ApartLeads(s, a, s1);
    var b, s2 := Clear(s1, id);
    ApartLeads(s1, b, s2);
    LeadsOn(APART, s, a, s1, b, s2);
    var c, s3 := Drop(s2, id);
    LeadsOn(APART, s, a + b, s2, c, s3);
    var h1, d, s4 := LaunchAnew(s3, id);
    LeadsOn(APART, s, a + b + c, s3, d, s4);
    var e, s5 := Drop(s4, id);
    LeadsOn(APART, s, a + b + c + d, s4, e, s5);
    var h2, f, s6 := LaunchAnew(s5, id);
    LeadsOn(APART, s, a + b + c + d + e, s5, f, s6);
    TwoLive(s6, id, h1, h2);
    DoublesLater(s, a + b + c + d + e + f, s6);
  }

  lemma TwoLive(s: State, id: TaskId, a: Handle, b: Handle)
    requires Lives(s, id, a) && Lives(s, id, b) && a != b
    ensures !AtMostOneEach(s)
  {}

  // ---- a late process that will not be killed ----

  /** The pass is brought to its end; the process of the task is then no longer tracked, but alive. */
  lemma PassLeavesAlive(s: State, id: TaskId) returns (h: Handle, es: seq<Event>, t: State)
    requires AllApart(s) && id in LateIds(s.pass) && LateAlive(s, id) && !WillKill(s.tasks, id)
    ensures Leads(APART, s, es, t) && OnlyPass(es) && Untouched(s, t) && t.pass.Idle? && id !in t.running
    ensures Lives(t, id, h) && !InProgress(t, id)
  {
    LateIsNotLaunched(s, id);
    ApartHandles(s);
    hide Leads, Next, Enabled, Obeys, AllApart;
    var m, a := s, [];
    if s.pass.Finishing? && id == s.pass.task {
      h := s.pass.proc.handle;
      LeadsNowhere(APART, s);
      UntouchedSelf(s);
    } else {
      h := s.running[id].handle;
      SortedApart(s);
      a, m := TakeLate(APART, s, id);
    }
    assert Lives(s, id, h);
    ApartLeads(s, a, m);
    TakenIsGone(m);
    var b;
    b, t := CompletePass(APART, m);
    LeadsOn(APART, s, a, m, b, t);
    es := a + b;
    UntouchedOn(s, m, t);
    LeadsSpares(s, es, t, id);
    assert forall th | th in t.launches && Engaged(t, th) :: Engaged(s, th);
  }

  lemma UntouchedSelf(s: State)
    ensures Untouched(s, s)
  {}

  lemma LateIsNotLaunched(s: State, id: TaskId)
    requires AllApart(s) && id in LateIds(s.pass)
    ensures forall th | th in s.launches && Engaged(s, th) :: s.launches[th].task != id
    ensures s.pass.Finishing? && id == s.pass.task ==> s.pass.proc.handle in s.origin && s.origin[s.pass.proc.handle].task == id
    ensures id in s.running ==> s.running[id].handle in s.origin && s.origin[s.running[id].handle].task == id
  {}

  lemma SortedApart(s: State)
    requires AllApart(s)
    ensures Sorted(s)
  {
    hide HandlesOk, LaunchesApart, Pending;
  }

  lemma UnkilledDoubles(s: State, id: TaskId)
    requires AllApart(s) && KillSafe(s.tasks) && id in LateIds(s.pass) && LateAlive(s, id) && !WillKill(s.tasks, id)
    ensures CanDouble(s)
  {
    hide Leads, Next, Enabled, Obeys, AllApart, AtMostOneEach, KillSafe, InProgress;
    var h, a, m := PassLeavesAlive(s, id);
    OnlyPassIsNoEdit(a);
    ApartLeads(s, a, m);
    if id in m.tasks {
      var b, h2, t := SecondLaunch(m, id);
      ApartHandles(m);
      LaunchedTwice(m, t, id, h, h2);
      LeadsOn(APART, s, a, m, b, t);
      DoublesLater(s, a + b, t);
    } else {
      var again := m.tasks[id := Task(true, WaitNext, None, false)];
      var q := EditTasksNext(m, again);
      EditLeads(m, again);
      EditKeepsLaunches(m, again, id);
      SafelyAgain(m, id);
      var b, h2, t := SecondLaunch(q, id);
      ApartHandles(m);
      LaunchedTwice(q, t, id, h, h2);
      LeadsOn(APART, m, [EditTasks(again)], q, b, t);
      LeadsOn(APART, s, a, m, [EditTasks(again)] + b, t);
      OneSafeEdit(s, a, m, again, q, b, t);
    }
  }

  lemma LaunchedTwice(m: State, t: State, id: TaskId, h: Handle, h2: Handle)
    requires Lives(m, id, h) && h2 !in m.issued && h in m.issued
    requires h2 in t.live && m.live <= t.live && h2 in t.origin && t.origin[h2].task == id
    requires forall x | x in m.origin && x != h2 :: x in t.origin && t.origin[x] == m.origin[x]
    ensures !AtMostOneEach(t)
  {
    TwoLive(t, id, h, h2);
  }

  lemma EditKeepsLaunches(s: State, edited: map<TaskId, Task>, id: TaskId)
    requires !InProgress(s, id)
    ensures !InProgress(EditTasksNext(s, edited), id)
  {
    var t := EditTasksNext(s, edited);
    assert forall th | th in t.launches && Engaged(t, th) :: Engaged(s, th);
  }

  lemma SafelyAgain(s: State, id: TaskId)
    requires s.pass.Idle? && KillSafe(s.tasks)
    ensures SafeEdit(s, s.tasks[id := Task(true, WaitNext, None, false)])
  {}

  lemma OneSafeEdit(s: State, a: seq<Event>, m: State, edited: map<TaskId, Task>, q: State, b: seq<Event>, t: State)
    requires Leads(APART, s, a, m) && NoEdits(a) && SafeEdit(m, edited) && NoEdits(b) && !AtMostOneEach(t)
    requires Leads(APART, m, [EditTasks(edited)], q) && Leads(APART, q, b, t)
    requires Leads(APART, s, a + ([EditTasks(edited)] + b), t)
    ensures CanDouble(s)
  {
    hide Next, Enabled, Obeys, AtMostOneEach, SafeEdit;
    var e := [EditTasks(edited)];
    LeadsRuns(APART, s, a, m);
    LeadsRuns(APART, m, e, q);
    LeadsRuns(APART, q, b, t);
    LeadsRuns(APART, s, a + (e + b), t);
    NoEditsAreSafe(s, a);
    NoEditsAreSafe(q, b);
    RunsConcat(m, e, b);
    assert SafeEdits(m, e) by { assert e[1..] == []; }
    SafeEditsConcat(m, e, b);
    SafeEditsConcat(s, a, e + b);
  }

  // ---- both directions ----

  /** In every state that such runs reach, an edit is safe precisely if two live processes of a task
      cannot follow from it while all later edits are safe. */
  lemma SafeEditIsExact(s: State, edited: map<TaskId, Task>)
    requires Guarded(s)
    ensures SafeEdit(s, edited) <==> !CanDouble(EditTasksNext(s, edited))
  {
    var t := EditTasksNext(s, edited);
    if SafeEdit(s, edited) {
      SafeEditGuards(s, edited);
      hide Guarded, SafeEdits, AtMostOneEach, SafeEdit;
      forall es | ObeyingRun(APART, t, es) && SafeEdits(t, es) ensures AtMostOneEach(After(t, es)) { NeverDoubles(t, es); }
    } else {
      EditStaysApart(s, edited);
      hide AllApart, CanDouble, NoOrphans, CascadeDelete;
      if !KillSafe(edited) {
        var id :| id in edited && !(edited[id].timeout.None? || edited[id].kill);
        UnsafeTaskDoubles(t, id);
      } else {
        var id :| id in LateIds(s.pass) && LateAlive(s, id) && !WillKill(edited, id);
        UnkilledDoubles(t, id);
      }
    }
  }

  lemma EditStaysApart(s: State, edited: map<TaskId, Task>)
    requires AllApart(s)
    ensures AllApart(EditTasksNext(s, edited))
  {
    hide AllApart;
    ApartStep(s, EditTasks(edited));
    OutsideEffect(s, EditTasks(edited));
  }

  /** The same for an edit after any run under the rules with safe edits. */
  lemma FirstUnsafeEdit(tasks: map<TaskId, Task>, now: int, history: Table, a: seq<Event>, edited: map<TaskId, Task>)
    requires Stored(tasks, history) && KillSafe(tasks)
    requires ObeyingRun(APART, Initial(tasks, now, history), a) && SafeEdits(Initial(tasks, now, history), a)
    ensures var s := After(Initial(tasks, now, history), a);
            SafeEdit(s, edited) <==> !CanDouble(EditTasksNext(s, edited))
  {
    hide Guarded, SafeEdits, CanDouble, SafeEdit;
    StartsGuarded(tasks, now, history);
    GuardedRun(Initial(tasks, now, history), a);
    SafeEditIsExact(After(Initial(tasks, now, history), a), edited);
  }
}
