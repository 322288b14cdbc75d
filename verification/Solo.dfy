/** A service to which no client sends anything: which configurations of its tasks keep it from
    losing handles and from running a task twice. */
module Solo {
  import opened Common
  import opened History
  import opened Engine
  import opened Effects
  import opened Handles
  import opened Discipline
  import opened LiveProcesses
  import opened Steering
  import opened Overruns

  const SOLO: Rules := Rules(false, false, false, true)

  /** Every task that can become due waits while it is tracked. */
  predicate Waiting(tasks: map<TaskId, Task>) {
    forall id | id in tasks && tasks[id].enabled :: Waits(tasks[id])
  }

  /** Every task that can become due is killed when it reaches its limit, or has none. */
  predicate Killing(tasks: map<TaskId, Task>) {
    forall id | id in tasks && tasks[id].enabled :: KilledWhenLate(tasks[id])
  }

  predicate KilledWhenLate(task: Task) {
    task.timeout.None? || task.kill
  }

  lemma SoloKeepsTasks(s: State, e: Event)
    requires Enabled(s, e) && Solitary(s, e)
    ensures Next(s, e).tasks == s.tasks
  {}

  lemma {:induction false} SoloHasNoEdits(s: State, es: seq<Event>)
    requires ObeyingRun(SOLO, s, es)
    ensures NoEdits(es) && After(s, es).tasks == s.tasks
    decreases |es|
  {
    hide Next, Enabled, Solitary;
    if es != [] {
      SoloObeys(s, es[0]);
      SoloKeepsTasks(s, es[0]);
      SolitaryIsNoEdit(s, es[0]);
      SoloHasNoEdits(Next(s, es[0]), es[1..]);
      assert forall e | e in es :: e == es[0] || e in es[1..];
    }
  }

  lemma SoloObeys(s: State, e: Event)
    ensures Obeys(SOLO, s, e) <==> Solitary(s, e)
  {}

  lemma SolitaryIsNoEdit(s: State, e: Event)
    requires Solitary(s, e)
    ensures !e.EditTasks?
  {}

  // ---- waiting tasks ----

  lemma WaitingIsApart(s: State, e: Event)
    requires Waiting(s.tasks) && Enabled(s, e) && Solitary(s, e)
    ensures Apart(s, e)
  {}

  /** If every task waits, the worker keeps its launches and passes apart by itself. */
  lemma {:induction false} WaitingKeepsApart(s: State, es: seq<Event>)
    requires Waiting(s.tasks) && ObeyingRun(SOLO, s, es)
    ensures ObeyingRun(APART, s, es)
    decreases |es|
  {
    hide Next, Enabled, Solitary, Apart, Waiting;
    if es != [] {
      SoloObeys(s, es[0]);
      WaitingIsApart(s, es[0]);
      SoloKeepsTasks(s, es[0]);
      WaitingKeepsApart(Next(s, es[0]), es[1..]);
    }
  }

  /** Launched twice in a row, a task that does not wait has two live processes, and the handle of
      the first is lost. */
  lemma SecondLaunchOverwrites(tasks: map<TaskId, Task>, now: int, history: Table, id: TaskId)
    returns (es: seq<Event>, t: State)
    requires id in tasks && tasks[id].enabled && !Waits(tasks[id])
    ensures Leads(SOLO, Initial(tasks, now, history), es, t) && t.overwritten == 1 && !AtMostOneEach(t)
  {
    hide Leads, Next, Enabled, Obeys;
    var s0 := Initial(tasks, now, history);
    var r1 := FreshNumber(s0.usedRows);
    MayBegin(SOLO, s0, id, r1);
    var h1, a, s1 := WholeLaunch(SOLO, s0, WORKER, id, r1);
    var r2 := FreshNumber(s1.usedRows);
    MayBeginAgain(s1, id, r2);
    var h2, b, s2 := WholeLaunch(SOLO, s1, WORKER, id, r2);
    es, t := a + b, s2;
    LeadsOn(SOLO, s0, a, s1, b, t);
    assert h1 in t.live && h2 in t.live && h1 != h2 && t.origin[h1].task == t.origin[h2].task == id;
  }

  lemma MayBeginAgain(s: State, id: TaskId, row: RowId)
    requires s.pass.Idle? && s.launches == map[] && id in s.tasks && s.tasks[id].enabled && !Waits(s.tasks[id])
    ensures Obeys(SOLO, s, BeginLaunch(WORKER, id, row))
  {}

  /** A service without clients never overwrites an entry, and so never loses a handle, exactly if
      each of its enabled tasks waits while it is tracked. */
  lemma WaitingIsExact(tasks: map<TaskId, Task>, now: int, history: Table)
    requires Stored(tasks, history)
    ensures Waiting(tasks) <==>
      forall es | ObeyingRun(SOLO, Initial(tasks, now, history), es) :: After(Initial(tasks, now, history), es).overwritten == 0
  {
    hide Next, Enabled, Obeys, AllApart;
    var s0 := Initial(tasks, now, history);
    if Waiting(tasks) {
      StartsApart(tasks, now, history);
      forall es | ObeyingRun(SOLO, s0, es) ensures After(s0, es).overwritten == 0 {
        WaitingKeepsApart(s0, es);
        NothingOverwritten(APART, s0, es);
      }
    } else {
      var id :| id in tasks && tasks[id].enabled && !Waits(tasks[id]);
      var es, t := SecondLaunchOverwrites(tasks, now, history, id);
      LeadsRuns(SOLO, s0, es, t);
    }
  }

  // ---- one process at a time ----

  /** Only enabled tasks are launched or tracked, and those found late will be killed. */
  ghost predicate LateAreKilled(s: State) {
    && (forall th | th in s.launches :: WillBeKilled(s, s.launches[th].task))
    && (forall id | id in s.running :: WillBeKilled(s, id))
    && (forall id | id in LateIds(s.pass) :: WillKill(s.tasks, id))
  }

  predicate WillBeKilled(s: State, id: TaskId) {
    id in s.tasks && KilledWhenLate(s.tasks[id])
  }

  lemma LateAreKilledStep(s: State, e: Event)
    requires AllApart(s) && LateAreKilled(s) && Killing(s.tasks) && Enabled(s, e) && Solitary(s, e)
    ensures LateAreKilled(Next(s, e)) && Kills(s, e)
  {
    if e.Examine? {
      ExamineKills(s, e);
    } else {
      LateIdsShrink(s, e);
      LaunchedAreKilled(s, e);
      hide Next, Enabled;
    }
  }

  lemma ExamineKills(s: State, e: Event)
    requires AllApart(s) && LateAreKilled(s) && Enabled(s, e) && e.Examine?
    ensures LateAreKilled(Next(s, e)) && Kills(s, e)
  {
    ExamineEffect(s, e.code, e.pick);
    assert s.pass.todo[0].0 in s.running;
    hide Next, Enabled, AllApart, SameOwners;
  }

  lemma LaunchedAreKilled(s: State, e: Event)
    requires LateAreKilled(s) && Killing(s.tasks) && Enabled(s, e) && Solitary(s, e) && !e.Examine?
    ensures var t := Next(s, e);
            && (forall th | th in t.launches :: WillBeKilled(t, t.launches[th].task))
            && (forall id | id in t.running :: WillBeKilled(t, id))
  {
    if PassEvent(e) {
      PassUntouched(s, e);
      hide Next, Enabled, SameOwners;
    } else {
      hide Update, Stamp, CascadeDelete;
    }
  }

  lemma {:induction false} KillingKills(s: State, es: seq<Event>)
    requires AllApart(s) && LateAreKilled(s) && Waiting(s.tasks) && Killing(s.tasks) && ObeyingRun(SOLO, s, es)
    ensures ObeyingRun(Rules(true, false, true, false), s, es)
    decreases |es|
  {
    hide Next, Enabled, Solitary, Apart, Kills, Waiting, Killing, AllApart, LateAreKilled;
    if es != [] {
      SoloObeys(s, es[0]);
      WaitingIsApart(s, es[0]);
      LateAreKilledStep(s, es[0]);
      ApartStep(s, es[0]);
      SoloKeepsTasks(s, es[0]);
      KillingKills(Next(s, es[0]), es[1..]);
    }
  }

  lemma WaitingKillingIsSafe(tasks: map<TaskId, Task>, now: int, history: Table, es: seq<Event>)
    requires Stored(tasks, history) && Waiting(tasks) && Killing(tasks)
    requires ObeyingRun(SOLO, Initial(tasks, now, history), es)
    ensures AtMostOneEach(After(Initial(tasks, now, history), es))
  {
    hide Next, Enabled, AllApart, AtMostOneEach, NoOrphans;
    var s0 := Initial(tasks, now, history);
    StartsApart(tasks, now, history);
    KillingKills(s0, es);
    NoneOrphaned(tasks, now, history);
    OrphanRun(Rules(true, false, true, false), s0, es);
    OneEach(After(s0, es));
  }

  /** A service without clients has at most one live process per task, however processes exit and
      the clock moves, exactly if each of its enabled tasks waits while it is tracked, and is killed
      when it reaches its limit or has none. */
  lemma OneAtATimeIsExact(tasks: map<TaskId, Task>, now: int, history: Table)
    requires Stored(tasks, history)
    ensures Waiting(tasks) && Killing(tasks) <==>
      forall es | ObeyingRun(SOLO, Initial(tasks, now, history), es) :: AtMostOneEach(After(Initial(tasks, now, history), es))
  {
    hide Next, Enabled, Obeys, AtMostOneEach;
    var s0 := Initial(tasks, now, history);
    if Waiting(tasks) && Killing(tasks) {
      forall es | ObeyingRun(SOLO, s0, es) ensures AtMostOneEach(After(s0, es)) {
        WaitingKillingIsSafe(tasks, now, history, es);
      }
    } else if !Waiting(tasks) {
      var id :| id in tasks && tasks[id].enabled && !Waits(tasks[id]);
      var es, t := SecondLaunchOverwrites(tasks, now, history, id);
      LeadsRuns(SOLO, s0, es, t);
    } else {
      var id :| id in tasks && tasks[id].enabled && !KilledWhenLate(tasks[id]);
      var es, t := SecondProcess(SOLO, tasks, now, history, id);
      LeadsRuns(SOLO, s0, es, t);
    }
  }
}
