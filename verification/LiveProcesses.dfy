/** How many processes of one task can be alive at a time, and when a process counts as timed
    out. */
module LiveProcesses {
  import opened Common
  import opened History
  import opened Engine
  import opened Effects
  import opened Handles
  import opened Discipline

  /** Every live process is tracked, about to be tracked, or being timed out; and an entry
      waiting to be erased holds no live process. */
  ghost predicate NoOrphans(s: State) {
    && (forall h | h in s.live :: IsTracked(s, h) || IsInFlight(s, h) || h in InHand(s))
    && (s.pass.Examining? ==>
          forall id | id in s.running && id in s.pass.exited :: s.running[id].handle !in s.live)
  }

  lemma OrphanExamineStep(s: State, e: Event)
    requires AllApart(s) && NoOrphans(s) && Enabled(s, e) && e.Examine?
    ensures NoOrphans(Next(s, e))
  {
    ExamineEffect(s, e.code, e.pick);
    hide Next, Enabled, TimedOut, SameOwners;
    var (id, proc) := s.pass.todo[0];
    assert id in s.running && s.running[id] == proc;
  }

  lemma OrphanCreateStep(s: State, e: Event)
    requires AllApart(s) && NoOrphans(s) && Enabled(s, e) && e.CreateProcess?
    ensures NoOrphans(Next(s, e))
  {
    CreateEffect(s, e);
    hide Next, Enabled;
    assert s.origin.Keys == s.issued;
    hide AllApart;
  }

  lemma OrphanTrackStep(s: State, e: Event)
    requires AllApart(s) && NoOrphans(s) && Enabled(s, e) && e.Track?
    ensures NoOrphans(Next(s, e))
  {
    TrackEffect(s, e);
    assert Engaged(s, e.thread);
    hide Next, Enabled, PassApart, PassOk;
  }

  lemma OrphanLaunchStep(s: State, e: Event)
    requires AllApart(s) && NoOrphans(s) && Enabled(s, e) && (e.BeginLaunch? || e.CreateFails? || e.EndLaunch?)
    ensures NoOrphans(Next(s, e))
  {
    match e {
      case BeginLaunch(_, _, _) => BeginEffect(s, e);
      case CreateFails(_) => CreateFailsEffect(s, e);
      case _ => EndLaunchEffect(s, e);
    }
    hide Next, Enabled, Update, Stamp, AllApart;
  }

  lemma OrphanOtherStep(s: State, e: Event)
    requires AllApart(s) && NoOrphans(s) && Enabled(s, e) && Kills(s, e)
    requires !e.Examine? && !LaunchEvent(e)
    ensures NoOrphans(Next(s, e))
  {
    if PassEvent(e) { ExpireEffect(s, e); }
    else if e.Snapshot? { SnapshotEffect(s, e); }
    else { OutsideEffect(s, e); }
    hide Next, Enabled, CascadeDelete, SameOwners, PassApart, Pending;
  }

  lemma NoneOrphaned(tasks: map<TaskId, Task>, now: int, history: Table)
    ensures NoOrphans(Initial(tasks, now, history))
  {}

  lemma OrphanStep(s: State, e: Event)
    requires AllApart(s) && NoOrphans(s) && Enabled(s, e) && Kills(s, e)
    ensures NoOrphans(Next(s, e))
  {
    hide AllApart, NoOrphans, Next, Enabled, Kills;
    match e
    case Examine(_, _) => OrphanExamineStep(s, e);
    case CreateProcess(_, _, _) => OrphanCreateStep(s, e);
    case Track(_) => OrphanTrackStep(s, e);
    case _ => if LaunchEvent(e) { OrphanLaunchStep(s, e); } else { OrphanOtherStep(s, e); }
  }

  lemma {:induction false} OrphanRun(g: Rules, s: State, es: seq<Event>)
    requires g.apart && g.kills && AllApart(s) && NoOrphans(s) && ObeyingRun(g, s, es)
    ensures AllApart(After(s, es)) && NoOrphans(After(s, es))
    decreases |es|
  {
    hide AllApart, NoOrphans, Next, Enabled, Apart, Kills;
    if es != [] {
      ApartStep(s, es[0]);
      OrphanStep(s, es[0]);
      OrphanRun(g, Next(s, es[0]), es[1..]);
    }
  }

  predicate AtMostOneEach(s: State) {
    forall a, b | a in s.live && b in s.live && a in s.origin && b in s.origin
      && s.origin[a].task == s.origin[b].task :: a == b
  }

  lemma OneEach(s: State)
    requires AllApart(s) && NoOrphans(s)
    ensures AtMostOneEach(s)
  {
    forall a, b | a in s.live && b in s.live && s.origin[a].task == s.origin[b].task ensures a == b {
      if IsInFlight(s, a) && IsInFlight(s, b) {
        assert s.launches[s.origin[a].thread].task == s.launches[s.origin[b].thread].task;
      }
    }
  }

  // ---- from the configuration of the tasks ----

  /** Tasks without a timeout, or whose process is terminated when it times out. */
  predicate KillSafe(tasks: map<TaskId, Task>) {
    forall id | id in tasks :: tasks[id].timeout.None? || tasks[id].kill
  }

  predicate WillKill(tasks: map<TaskId, Task>, id: TaskId) {
    id in tasks && tasks[id].kill
  }

  /** The pass has found the task late, and its process is still alive. */
  predicate LateAlive(s: State, id: TaskId) {
    if s.pass.Finishing? && id == s.pass.task then s.pass.proc.handle in s.live
    else id in LateIds(s.pass) && id in s.running && s.running[id].handle in s.live
  }

  /** An edit keeps every task of that kind, and those found late whose processes are alive as ones
      to be killed. */
  predicate SafeEdit(s: State, edited: map<TaskId, Task>) {
    KillSafe(edited) && forall id | id in LateIds(s.pass) && LateAlive(s, id) :: WillKill(edited, id)
  }

  ghost predicate SafeEdits(s: State, es: seq<Event>)
    requires Runs(s, es)
    decreases |es|
  {
    es != [] ==> (es[0].EditTasks? ==> SafeEdit(s, es[0].edited)) && SafeEdits(Next(s, es[0]), es[1..])
  }

  ghost predicate LateWillBeKilled(s: State) {
    SafeEdit(s, s.tasks)
  }

  lemma KillExamineStep(s: State, e: Event)
    requires AllApart(s) && LateWillBeKilled(s) && Enabled(s, e) && e.Examine?
    ensures LateWillBeKilled(Next(s, e))
  {
    ExamineEffect(s, e.code, e.pick);
    hide Next, Enabled, AllApart, SameOwners, KillSafe;
    var id := s.pass.todo[0].0;
    if id in s.tasks && s.tasks[id].timeout.Some? {
      KillLimit(s.tasks, id);
    }
  }

  lemma KillLimit(tasks: map<TaskId, Task>, id: TaskId)
    requires KillSafe(tasks) && id in tasks && tasks[id].timeout.Some?
    ensures tasks[id].kill
  {}

  lemma LateIdsShrink(s: State, e: Event)
    requires Enabled(s, e) && !e.Examine?
    ensures LateIds(Next(s, e).pass) <= LateIds(s.pass)
    ensures !e.EditTasks? ==> Next(s, e).tasks == s.tasks
  {
    if e.TakeTimedOut? {
      assert Elements(s.pass.due) == {s.pass.due[0]} + Elements(s.pass.due[1..]);
    }
  }

  /** No process becomes one that was found late. */
  lemma LateAliveBefore(s: State, e: Event, id: TaskId)
    requires AllApart(s) && Enabled(s, e) && !e.Examine? && id in LateIds(Next(s, e).pass) && LateAlive(Next(s, e), id)
    ensures LateAlive(s, id)
  {
    LateIdsShrink(s, e);
    if LaunchEvent(e) {
      LateAliveLaunch(s, e, id);
    } else if PassEvent(e) {
      ExpireEffect(s, e);
      hide Next, Enabled, SameOwners;
    } else if e.Snapshot? {
      SnapshotEffect(s, e);
      hide Next, Enabled;
    } else {
      OutsideEffect(s, e);
      hide Next, Enabled;
    }
  }

  lemma LateAliveLaunch(s: State, e: Event, id: TaskId)
    requires AllApart(s) && Enabled(s, e) && LaunchEvent(e) && id in LateIds(Next(s, e).pass) && LateAlive(Next(s, e), id)
    ensures LateAlive(s, id)
  {
    match e {
      case BeginLaunch(_, _, _) => BeginEffect(s, e);
      case CreateFails(_) => CreateFailsEffect(s, e);
      case CreateProcess(_, _, _) => CreateEffect(s, e);
      case Track(_) => TrackEffect(s, e);
      case _ => EndLaunchEffect(s, e);
    }
    assert e.Track? ==> Engaged(s, e.thread);
    hide Next, Enabled, Update, Stamp, PassApart, LaunchesOk;
  }

  lemma KillStep(s: State, e: Event)
    requires AllApart(s) && LateWillBeKilled(s) && Enabled(s, e)
    requires e.EditTasks? ==> SafeEdit(s, e.edited)
    ensures LateWillBeKilled(Next(s, e)) && Kills(s, e)
  {
    if e.Examine? {
      KillExamineStep(s, e);
    } else {
      var t := Next(s, e);
      LateIdsShrink(s, e);
      forall id | id in LateIds(t.pass) && LateAlive(t, id) ensures LateAlive(s, id) { LateAliveBefore(s, e, id); }
      if e.EditTasks? { EditSetsTasks(s, e); }
      hide Next, Enabled, KillSafe, AllApart;
    }
  }

  lemma EditSetsTasks(s: State, e: Event)
    requires Enabled(s, e) && e.EditTasks?
    ensures Next(s, e).tasks == e.edited
  {}

  lemma {:induction false} KillRun(s: State, es: seq<Event>)
    requires AllApart(s) && LateWillBeKilled(s) && ObeyingRun(Rules(true, false, false, false), s, es) && SafeEdits(s, es)
    ensures ObeyingRun(Rules(true, false, true, false), s, es)
    decreases |es|
  {
    if es != [] {
      KillStep(s, es[0]);
      ApartStep(s, es[0]);
      hide Next, Enabled, LateWillBeKilled, AllApart;
      KillRun(Next(s, es[0]), es[1..]);
    }
  }

  /** If launches and passes keep apart and every task either has no timeout or is killed on
      timeout, at most one process per task is alive, in every reachable state and through
      failed launches, exits, kills and edits. */
  lemma AtMostOneLive(tasks: map<TaskId, Task>, now: int, history: Table, es: seq<Event>)
    requires Stored(tasks, history)
    requires KillSafe(tasks)
    requires ObeyingRun(Rules(true, false, false, false), Initial(tasks, now, history), es)
    requires SafeEdits(Initial(tasks, now, history), es)
    ensures AtMostOneEach(After(Initial(tasks, now, history), es))
  {
    var s0 := Initial(tasks, now, history);
    StartsApart(tasks, now, history);
    KillRun(s0, es);
    OrphanRun(Rules(true, false, true, false), s0, es);
    OneEach(After(s0, es));
  }

  lemma {:induction false} NoEditsAreSafe(s: State, es: seq<Event>)
    requires Runs(s, es) && NoEdits(es)
    ensures SafeEdits(s, es)
    decreases |es|
  {
    hide Next, Enabled;
    if es != [] {
      assert es[0] in es && forall e | e in es[1..] :: e in es;
      NoEditsAreSafe(Next(s, es[0]), es[1..]);
    }
  }

  // ---- timeouts ----

  /** A positive limit of `limit` minutes is exceeded from the moment the process is that many
      full minutes old; a limit of zero or less already from less than a minute before its
      start, because durations are truncated toward zero. */
  lemma TimeoutAge(task: Task, began: int, proc: Proc)
    ensures TimedOut(task, began, proc) <==>
      task.timeout.Some? &&
      (if task.timeout.value > 0 then began - proc.start >= task.timeout.value * MINUTE
       else began - proc.start > (task.timeout.value - 1) * MINUTE)
  {
    var d := began - proc.start;
    if d >= 0 {
      assert d == (d / MINUTE) * MINUTE + d % MINUTE;
    } else {
      assert -d == (-d / MINUTE) * MINUTE + -d % MINUTE;
    }
  }
}
