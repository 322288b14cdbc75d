/** Which configurations of tasks guarantee one process per task. */
module Overruns {
  import opened Common
  import opened History
  import opened Engine
  import opened Effects
  import opened Handles
  import opened Discipline
  import opened LiveProcesses
  import opened Steering

  const APART: Rules := Rules(true, false, false, false)

  /** A launch from a state in which nothing is going on. */
  lemma WholeLaunch(g: Rules, s: State, th: Thread, id: TaskId, row: RowId) returns (h: Handle, es: seq<Event>, t: State)
    requires !g.kills && Obeys(g, s, BeginLaunch(th, id, row))
    requires s.pass.Idle? && th !in s.launches && id in s.tasks && row !in s.usedRows
    ensures Leads(g, s, es, t) && NoEdits(es) && h !in s.issued
    ensures t.history == s.history[row := Row(id, Stamp(s.now), None, None, 100, Running, NoMessage)]
    ensures t == s.(history := t.history, usedRows := s.usedRows + {row}, running := s.running[id := Proc(h, s.now)],
                    issued := s.issued + {h}, live := s.live + {h}, origin := s.origin[h := Origin(id, row, th)],
                    overwritten := if id in s.running then s.overwritten + 1 else s.overwritten)
  {
    var b := BeginLaunch(th, id, row);
    var m := Next(s, b);
    LeadsStep(g, s, b, m);
    var mid, n;
    h, mid, n := StartProcess(g, m, th);
    var e := EndLaunch(th);
    t := Next(n, e);
    assert t.launches == s.launches && t.history == s.history[row := Row(id, Stamp(s.now), None, None, 100, Running, NoMessage)];
    LeadsStep(g, n, e, t);
    hide Leads, Next, Enabled, Obeys;
    LeadsOn(g, s, [b], m, mid, n);
    es := [b] + mid + [e];
    LeadsOn(g, s, [b] + mid, n, [e], t);
  }

  /** The worker may launch an enabled task that is not tracked, under either set of rules. */
  lemma MayBegin(g: Rules, s: State, id: TaskId, row: RowId)
    requires !g.kills && !g.stamps && s.pass.Idle? && s.launches == map[] && id in s.tasks && id !in s.running
    requires g.solo ==> s.tasks[id].enabled
    ensures Obeys(g, s, BeginLaunch(WORKER, id, row))
  {}

  lemma Worker(g: Rules, s: State, e: Event, t: State)
    requires Enabled(s, e) && t == Next(s, e) && (PassEvent(e) || e.BeginPass? || e.SetClock?)
    requires !g.kills && (g.solo ==> s.launches == map[])
    ensures Leads(g, s, [e], t)
  {
    LeadsStep(g, s, e, t);
  }

  lemma PassBegins(g: Rules, s: State)
    requires s.pass.Idle? && !g.kills && (g.solo ==> s.launches == map[])
    ensures Leads(g, s, [BeginPass], s.(pass := Starting(s.now)))
  {
    Worker(g, s, BeginPass, s.(pass := Starting(s.now)));
  }

  /** The first half of a pass over a single late entry. */
  lemma FindsLate(g: Rules, s: State, id: TaskId) returns (es: seq<Event>, t: State)
    requires !g.kills && s.pass.Idle? && s.launches == map[] && s.running.Keys == {id} && LateEntry(s, s.now, (id, s.running[id]))
    ensures Leads(g, s, es, t) && NoEdits(es) && Untouched(s, t) && t.running == s.running && t.live == s.live
    ensures t.pass == Examining(s.now, [], [], [id])
  {
    hide Leads, Next, Enabled, Obeys, TimedOut;
    var s1 := s.(pass := Starting(s.now));
    PassBegins(g, s);
    assert Elements([id]) == {id} && TrackedThreads(s1) == {};
    var s2 := TakeSnapshot(g, s1, [id]);
    assert s2.pass.todo == [(id, s.running[id])];
    assert s2 == s.(pass := Examining(s.now, [(id, s.running[id])], [], []));
    var pick := NewestExists(s2.history, id);
    ExamineEffect(s2, 0, pick);
    t := Next(s2, Examine(0, pick));
    Worker(g, s2, Examine(0, pick), t);
    assert [] + [id] == [id] && [(id, s.running[id])][1..] == [];
    LeadsOn(g, s, [BeginPass], s1, [Snapshot([id])], s2);
    es := [BeginPass] + [Snapshot([id])] + [Examine(0, pick)];
    LeadsOn(g, s, [BeginPass] + [Snapshot([id])], s2, [Examine(0, pick)], t);
  }

  /** The second half, if the entry is not to be killed: the process lives on. */
  lemma Spares(g: Rules, s: State, id: TaskId) returns (es: seq<Event>, t: State)
    requires s.pass.Examining? && s.pass.todo == [] && s.pass.exited == [] && s.pass.timedOut == [id]
    requires s.running.Keys == {id} && id in s.tasks && !s.tasks[id].kill && !g.kills && s.launches == map[]
    ensures Leads(g, s, es, t) && NoEdits(es) && Untouched(s, t) && t.running == map[] && t.live == s.live && t.pass.Idle?
  {
    hide Leads, Next, Enabled, Obeys;
    EraseEffect(s);
    var s1 := Next(s, EraseExited);
    Worker(g, s, EraseExited, s1);
    assert s.running - Elements<TaskId>([]) == s.running;
    TakeEffect(s1);
    var s2 := Next(s1, TakeTimedOut);
    Worker(g, s1, TakeTimedOut, s2);
    assert [id][1..] == [] && s.running - {id} == map[];
    var pick := NewestExists(s2.history, id);
    FinishEffect(s2, pick);
    var s3 := Next(s2, FinishTimedOut(pick));
    Worker(g, s2, FinishTimedOut(pick), s3);
    EndEffect(s3);
    t := Next(s3, EndPass);
    Worker(g, s3, EndPass, t);
    LeadsOn(g, s, [EraseExited], s1, [TakeTimedOut], s2);
    LeadsOn(g, s, [EraseExited] + [TakeTimedOut], s2, [FinishTimedOut(pick)], s3);
    es := [EraseExited] + [TakeTimedOut] + [FinishTimedOut(pick)] + [EndPass];
    LeadsOn(g, s, [EraseExited] + [TakeTimedOut] + [FinishTimedOut(pick)], s3, [EndPass], t);
    UntouchedOn(s, s1, s2);
    UntouchedOn(s, s2, s3);
    SameOwnersRefl(s3.history);
    UntouchedOn(s, s3, t);
  }

  /** The moment at which a process that starts at `now` reaches the limit of its task. */
  function Limit(task: Task, now: int): int
    requires task.timeout.Some?
  {
    if task.timeout.value > 0 then now + task.timeout.value * MINUTE else now
  }

  lemma LimitIsReached(task: Task, now: int, h: Handle)
    requires task.timeout.Some?
    ensures TimedOut(task, Limit(task, now), Proc(h, now))
  {
    TimeoutAge(task, Limit(task, now), Proc(h, now));
  }

  predicate UnsafeTask(tasks: map<TaskId, Task>, id: TaskId) {
    id in tasks && tasks[id].timeout.Some? && !tasks[id].kill
  }

  /** A task with a limit whose process is not killed: launched, left to reach the limit, timed
      out and launched again, it has two live processes. */
  lemma SecondProcess(g: Rules, tasks: map<TaskId, Task>, now: int, history: Table, id: TaskId)
    returns (es: seq<Event>, t: State)
    requires !g.kills && !g.stamps && UnsafeTask(tasks, id) && (g.solo ==> tasks[id].enabled)
    ensures Leads(g, Initial(tasks, now, history), es, t) && NoEdits(es) && !AtMostOneEach(t)
  {
    hide Leads, Next, Enabled, Obeys, TimedOut;
    var s0 := Initial(tasks, now, history);
    var r1 := FreshNumber(s0.usedRows);
    MayBegin(g, s0, id, r1);
    var h1, a, s1 := WholeLaunch(g, s0, WORKER, id, r1);
    var later := Limit(tasks[id], now);
    var s2 := s1.(now := later);
    ClockEffect(g, s1, later);
    LimitIsReached(tasks[id], now, h1);
    var b, s3 := FindsLate(g, s2, id);
    var c, s4 := Spares(g, s3, id);
    UntouchedOn(s2, s3, s4);
    var r2 := FreshNumber(s4.usedRows);
    MayBegin(g, s4, id, r2);
    var h2, d, s5 := WholeLaunch(g, s4, WORKER, id, r2);
    t := s5;
    assert h1 in t.live && h2 in t.live && h1 != h2 && t.origin[h1].task == t.origin[h2].task == id;
    LeadsOn(g, s0, a, s1, [SetClock(later)], s2);
    LeadsOn(g, s0, a + [SetClock(later)], s2, b, s3);
    LeadsOn(g, s0, a + [SetClock(later)] + b, s3, c, s4);
    es := a + [SetClock(later)] + b + c + d;
    LeadsOn(g, s0, a + [SetClock(later)] + b + c, s4, d, t);
  }

  lemma ClockEffect(g: Rules, s: State, time: int)
    requires !g.kills && (g.solo ==> s.launches == map[])
    ensures Leads(g, s, [SetClock(time)], s.(now := time))
  {
    Worker(g, s, SetClock(time), s.(now := time));
  }

  /** The exact condition on the configuration: every run that keeps launches and passes apart
      leaves at most one process per task alive, whatever fails, exits or is killed, precisely if
      every task has no limit or is killed when it reaches it. */
  lemma KillSafeIsExact(tasks: map<TaskId, Task>, now: int, history: Table)
    requires Stored(tasks, history)
    ensures KillSafe(tasks) <==>
      forall es | ObeyingRun(APART, Initial(tasks, now, history), es) && NoEdits(es) :: AtMostOneEach(After(Initial(tasks, now, history), es))
  {
    hide Obeys, Next, Enabled, AtMostOneEach, NoEdits;
    var s0 := Initial(tasks, now, history);
    if KillSafe(tasks) {
      forall es | ObeyingRun(APART, s0, es) && NoEdits(es) ensures AtMostOneEach(After(s0, es)) {
        NoEditsAreSafe(s0, es);
        AtMostOneLive(tasks, now, history, es);
      }
    } else {
      var id :| id in tasks && !(tasks[id].timeout.None? || tasks[id].kill);
      var es, t := SecondProcess(APART, tasks, now, history, id);
      LeadsRuns(APART, s0, es, t);
    }
  }

  // ---- edits ----

  lemma ForgottenKill(s: State) returns (pick: Option<RowId>, t: State)
    requires s.pass.Finishing? && !WillKill(s.tasks, s.pass.task)
    ensures Leads(APART, s, [FinishTimedOut(pick)], t)
    ensures Untouched(s, t) && t.running == s.running && t.live == s.live && t.pass.Expiring?
  {
    hide Leads, Next, Enabled;
    pick := NewestExists(s.history, s.pass.task);
    FinishEffect(s, pick);
    t := Next(s, FinishTimedOut(pick));
    Worker(APART, s, FinishTimedOut(pick), t);
  }

  lemma EditLeads(s: State, edited: map<TaskId, Task>)
    ensures Leads(APART, s, [EditTasks(edited)], EditTasksNext(s, edited))
    ensures EditTasksNext(s, edited) == s.(tasks := edited, history := EditTasksNext(s, edited).history)
    ensures EditTasksNext(s, edited).history.Keys <= s.history.Keys
  {
    LeadsStep(APART, s, EditTasks(edited), EditTasksNext(s, edited));
  }

  lemma SecondLaunch(s: State, id: TaskId) returns (es: seq<Event>, h: Handle, t: State)
    requires id in s.tasks && id !in s.running && !(s.pass.Finishing? && s.pass.task == id) && !InProgress(s, id)
    ensures Leads(APART, s, es, t) && NoEdits(es) && h !in s.issued
    ensures h in t.live && s.live <= t.live && h in t.origin && t.origin[h].task == id
    ensures forall x | x in s.origin && x != h :: x in t.origin && t.origin[x] == s.origin[x]
  {
    var th := FreshNumber(s.launches.Keys);
    var row := FreshNumber(s.usedRows);
    var b := BeginLaunch(th, id, row);
    var m := Next(s, b);
    LeadsStep(APART, s, b, m);
    assert m.launches[th] == Begun(id, row);
    var c;
    h, c, t := StartProcess(APART, m, th);
    hide Leads, Next, Enabled, Obeys;
    LeadsOn(APART, s, [b], m, c, t);
    es := [b] + c;
  }

  /** A task edited so that its late process, already taken by the pass, is no longer to be
      killed: the process lives on untracked, and the next launch makes it two. */
  lemma UnsafeEditFollows(s: State, edited: map<TaskId, Task>) returns (es: seq<Event>, t: State)
    requires AllApart(s) && s.pass.Finishing? && s.pass.proc.handle in s.live && !WillKill(edited, s.pass.task)
    ensures Leads(APART, s, [EditTasks(edited)] + es, t) && !AtMostOneEach(t)
  {
    var id, h := s.pass.task, s.pass.proc.handle;
    assert id !in s.running && h in s.issued && h in s.origin && s.origin[h].task == id;
    assert forall th | th in s.launches && s.launches[th].task == id :: !Engaged(s, th);
    hide Leads, Next, Enabled, Obeys, EditTasksNext, AllApart;
    EditLeads(s, edited);
    var m := EditTasksNext(s, edited);
    var pick, n := ForgottenKill(m);
    var a, q := [FinishTimedOut(pick)], n;
    if id !in n.tasks {
      var again := n.tasks[id := Task(true, WaitNext, None, false)];
      EditLeads(n, again);
      q := EditTasksNext(n, again);
      LeadsOn(APART, m, a, n, [EditTasks(again)], q);
      a := a + [EditTasks(again)];
    }
    assert forall th | th in q.launches && Engaged(q, th) :: Engaged(s, th);
    var b, h2;
    b, h2, t := SecondLaunch(q, id);
    LeadsOn(APART, m, a, q, b, t);
    es := a + b;
    LeadsOn(APART, s, [EditTasks(edited)], m, es, t);
    assert h in t.live && h2 in t.live && h != h2 && t.origin[h].task == t.origin[h2].task;
  }
}
