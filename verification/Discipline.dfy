/** Conditions under which launches and the checking pass do not get in each other's way.
    The code does not enforce them against launches requested by clients. */
module Discipline {
  import opened Common
  import opened History
  import opened Engine
  import opened Handles
  import opened Effects
  import opened Ownership

  /** The launch can still do more than write its row back. One that has failed cannot, nor one
      that has tracked its process and whose row has been deleted. */
  predicate Engaged(s: State, th: Thread)
    requires th in s.launches
  {
    !s.launches[th].Refused? && (s.launches[th].Tracked? ==> s.launches[th].row in s.history)
  }

  predicate InProgress(s: State, id: TaskId) {
    exists th | th in s.launches :: s.launches[th].task == id && Engaged(s, th)
  }

  /** A launch starts only for a task that is not tracked, is not being timed out and has no
      other launch in progress; a snapshot is taken only when no launch has tracked its process
      without having written its row back. */
  predicate Apart(s: State, e: Event) {
    match e
    case BeginLaunch(_, id, _) =>
      id !in s.running && !(s.pass.Finishing? && s.pass.task == id) && !InProgress(s, id)
    case Snapshot(_) =>
      forall th | th in s.launches && s.launches[th].Tracked? && Engaged(s, th) :: s.launches[th].task !in s.running
    case _ => true
  }

  /** Two launches of one task never share a start stamp. */
  predicate FreshStamp(s: State, e: Event) {
    match e
    case BeginLaunch(_, id, _) => forall r | r in RowsOf(s.history, id) :: s.history[r].start < Stamp(s.now)
    case _ => true
  }

  /** A process that is timed out is also terminated, unless it has exited in the meantime. */
  predicate Kills(s: State, e: Event) {
    e.FinishTimedOut? && s.pass.Finishing? && s.pass.proc.handle in s.live ==>
      s.pass.task in s.tasks && s.tasks[s.pass.task].kill
  }

  /** The overlap actions under which a tracked task is not launched by the worker. */
  predicate Waits(task: Task) {
    task.overlap.WaitNext? || task.overlap.WaitComplete?
  }

  /** What a service does to which no client sends anything: the worker launches enabled tasks
      one at a time and between its passes, a tracked one only if the task does not wait. */
  predicate Solitary(s: State, e: Event) {
    match e
    case BeginLaunch(th, id, _) =>
      && th == WORKER && s.launches == map[] && s.pass.Idle?
      && (id in s.tasks ==> s.tasks[id].enabled && (id in s.running ==> !Waits(s.tasks[id])))
    case EditTasks(_) => false
    case ProcessExits(_) => true
    case SetClock(_) => true
    case _ => if LaunchEvent(e) then s.pass.Idle? else s.launches == map[]
  }

  /** Which of the conditions a run keeps. */
  datatype Rules = Rules(apart: bool, stamps: bool, kills: bool, solo: bool)

  predicate Obeys(g: Rules, s: State, e: Event) {
    (g.apart ==> Apart(s, e)) && (g.stamps ==> FreshStamp(s, e)) && (g.kills ==> Kills(s, e)) && (g.solo ==> Solitary(s, e))
  }

  ghost predicate ObeyingRun(g: Rules, s: State, es: seq<Event>)
    decreases |es|
  {
    Runs(s, es) && (es != [] ==> Obeys(g, s, es[0]) && ObeyingRun(g, Next(s, es[0]), es[1..]))
  }

  lemma {:induction false} ObeyingConcat(g: Rules, s: State, a: seq<Event>, b: seq<Event>)
    requires Runs(s, a + b)
    ensures Runs(s, a)
    ensures ObeyingRun(g, s, a + b) <==> ObeyingRun(g, s, a) && ObeyingRun(g, After(s, a), b)
    decreases |a|
  {
    if a == [] {
      assert a + b == b;
    } else {
      assert (a + b)[1..] == a[1..] + b;
      ObeyingConcat(g, Next(s, a[0]), a[1..], b);
    }
  }

  // ---- what keeping apart gives ----

  function TodoIds(todo: seq<(TaskId, Proc)>): set<TaskId> {
    if todo == [] then {} else {todo[0].0} + TodoIds(todo[1..])
  }

  lemma {:induction false} TodoIdsAt(todo: seq<(TaskId, Proc)>)
    ensures forall id :: id in TodoIds(todo) <==> exists i :: 0 <= i < |todo| && todo[i].0 == id
  {
    if todo != [] {
      TodoIdsAt(todo[1..]);
      assert forall i | 0 < i < |todo| :: todo[i] == todo[1..][i - 1];
    }
  }

  /** The entries a pass still has to deal with. */
  function Pending(p: Pass): set<TaskId> {
    match p
    case Idle => {}
    case Starting(_) => {}
    case Examining(_, todo, exited, timedOut) =>
      TodoIds(todo) + Elements(exited) + Elements(timedOut)
    case Expiring(due) => Elements(due)
    case Finishing(_, _, due) => Elements(due)
  }

  /** The tasks found late whose end the pass has not recorded yet. */
  function LateIds(p: Pass): set<TaskId> {
    match p
    case Examining(_, _, _, timedOut) => Elements(timedOut)
    case Expiring(due) => Elements(due)
    case Finishing(task, _, due) => {task} + Elements(due)
    case _ => {}
  }

  /** The row of the launch that created the tracked process. */
  function RowOf(s: State, id: TaskId): Option<RowId>
    requires id in s.running
  {
    var h := s.running[id].handle;
    if h in s.origin then Some(s.origin[h].row) else None
  }

  /** The part of a snapshot not examined yet agrees with the running map. */
  ghost predicate TodoApart(s: State, todo: seq<(TaskId, Proc)>, exited: seq<TaskId>, timedOut: seq<TaskId>) {
    && (forall i | 0 <= i < |todo| :: todo[i].0 in s.running && s.running[todo[i].0] == todo[i].1
          && todo[i].0 !in exited && todo[i].0 !in timedOut)
    && (forall i, j | 0 <= i < j < |todo| :: todo[i].0 != todo[j].0)
  }

  ghost predicate PassApart(s: State) {
    match s.pass
    case Idle => true
    case Starting(_) => true
    case Examining(_, todo, exited, timedOut) =>
      && TodoApart(s, todo, exited, timedOut)
      && NoDuplicates(timedOut)
      && (forall id | id in timedOut :: id !in exited)
    case Expiring(due) => NoDuplicates(due)
    case Finishing(task, _, due) => NoDuplicates(due) && task !in due && task !in s.running
  }

  ghost predicate LaunchesApart(s: State) {
    && (forall a, b | a in s.launches && b in s.launches && a != b && Engaged(s, a) && Engaged(s, b) ::
          s.launches[a].task != s.launches[b].task)
    && (forall th | th in s.launches && Engaged(s, th) :: var l := s.launches[th];
          && (l.Tracked? <==> l.task in s.running)
          && (l.Tracked? ==> RowOf(s, l.task) == Some(l.row))
          && (l.Created? ==> l.handle in s.origin && s.origin[l.handle].row == l.row)
          && !(s.pass.Finishing? && s.pass.task == l.task)
          && l.task !in Pending(s.pass))
  }

  /** Each task is in at most one place: launching, tracked, or being timed out. */
  ghost predicate AllApart(s: State) {
    HandlesOk(s) && OwnRows(s) && PassApart(s) && LaunchesApart(s) && Pending(s.pass) <= s.running.Keys
  }

  /** An event of a launch other than tracking leaves the pass and the entries alone. */
  lemma SamePassApart(s: State, t: State)
    requires PassApart(s) && Pending(s.pass) <= s.running.Keys && t.pass == s.pass && t.running == s.running
    ensures PassApart(t) && Pending(t.pass) <= t.running.Keys
  {
    hide Pending;
  }

  /** Of the launches one is new or has got on, and the others are as they were. */
  lemma OneLaunchApart(s: State, t: State, th: Thread)
    requires LaunchesApart(s) && th in t.launches && !t.launches[th].Tracked?
    requires t.launches == s.launches[th := t.launches[th]] && t.running == s.running && t.pass == s.pass
    requires forall id | id in s.running :: RowOf(t, id) == RowOf(s, id)
    requires forall x | x in s.launches && x != th && Engaged(t, x) :: Engaged(s, x) && s.launches[x].task != t.launches[th].task
    requires forall x | x in s.launches && s.launches[x].Created? :: var h := s.launches[x].handle;
               h in s.origin ==> h in t.origin && t.origin[h] == s.origin[h]
    requires var l := t.launches[th];
             && l.task !in s.running && !(s.pass.Finishing? && s.pass.task == l.task) && l.task !in Pending(s.pass)
             && (l.Created? ==> l.handle in t.origin && t.origin[l.handle].row == l.row)
    ensures LaunchesApart(t)
  {
    hide Pending, RowOf;
  }

  lemma ApartBeginStep(s: State, e: Event)
    requires AllApart(s) && Enabled(s, e) && Apart(s, e) && e.BeginLaunch?
    ensures PassApart(Next(s, e)) && LaunchesApart(Next(s, e)) && Pending(Next(s, e).pass) <= Next(s, e).running.Keys
  {
    BeginEffect(s, e);
    var t := Next(s, e);
    hide Next, Enabled, Stamp, LaunchesApart, PassApart, Pending, HandlesOk;
    assert forall th | th in s.launches && Engaged(s, th) :: s.launches[th].task != e.id;
    assert forall th | th in s.launches && Engaged(t, th) :: Engaged(s, th);
    SamePassApart(s, t);
    OneLaunchApart(s, t, e.thread);
  }

  lemma ApartCreateStep(s: State, e: Event)
    requires AllApart(s) && Enabled(s, e) && e.CreateProcess?
    ensures PassApart(Next(s, e)) && LaunchesApart(Next(s, e)) && Pending(Next(s, e).pass) <= Next(s, e).running.Keys
  {
    CreateEffect(s, e);
    var t := Next(s, e);
    assert Engaged(s, e.thread);
    hide Next, Enabled, PassApart, OwnRows;
    SamePassApart(s, t);
    assert s.origin.Keys == s.issued && forall id | id in s.running :: s.running[id].handle != e.handle;
    hide HandlesOk, Pending;
    OneLaunchApart(s, t, e.thread);
  }

  /** A new entry does not disturb the pass. */
  lemma NewEntryPassApart(s: State, t: State, id: TaskId)
    requires PassApart(s) && Pending(s.pass) <= s.running.Keys && t.pass == s.pass
    requires id !in s.running && id in t.running && t.running == s.running[id := t.running[id]]
    requires !(s.pass.Finishing? && s.pass.task == id)
    ensures PassApart(t) && Pending(t.pass) <= t.running.Keys
  {
    hide Pending;
  }

  lemma ApartTrackStep(s: State, e: Event)
    requires AllApart(s) && Enabled(s, e) && e.Track?
    ensures PassApart(Next(s, e)) && LaunchesApart(Next(s, e)) && Pending(Next(s, e).pass) <= Next(s, e).running.Keys
  {
    TrackEffect(s, e);
    hide Next, Enabled;
    var l := s.launches[e.thread];
    assert Engaged(s, e.thread);
    NewEntryPassApart(s, Next(s, e), l.task);
    hide HandlesOk, OwnRows, Pending, PassApart;
  }

  lemma ApartEndStep(s: State, e: Event)
    requires AllApart(s) && Enabled(s, e) && (e.CreateFails? || e.EndLaunch?)
    ensures PassApart(Next(s, e)) && LaunchesApart(Next(s, e)) && Pending(Next(s, e).pass) <= Next(s, e).running.Keys
  {
    if e.CreateFails? { CreateFailsEffect(s, e); } else { EndLaunchEffect(s, e); }
    SamePassApart(s, Next(s, e));
    hide PassApart, Next, Enabled, HandlesOk, OwnRows, Pending;
    assert Next(s, e).history.Keys == s.history.Keys;
    assert forall th | th in Next(s, e).launches :: Engaged(Next(s, e), th) ==> Engaged(s, th);
  }

  lemma ApartSnapshotStep(s: State, e: Event)
    requires AllApart(s) && Enabled(s, e) && Apart(s, e) && e.Snapshot?
    ensures PassApart(Next(s, e)) && LaunchesApart(Next(s, e)) && Pending(Next(s, e).pass) <= Next(s, e).running.Keys
  {
    SnapshotEffect(s, e);
    hide Next, Enabled;
    assert forall i | 0 <= i < |e.order| :: e.order[i] in Elements(e.order);
    TodoIdsAt(Next(s, e).pass.todo);
  }

  lemma ExaminePending(s: State, e: Event)
    requires Enabled(s, e) && e.Examine?
    ensures Pending(Next(s, e).pass) <= Pending(s.pass)
  {
    ExamineEffect(s, e.code, e.pick);
    hide Next, Enabled;
    assert TodoIds(s.pass.todo) == {s.pass.todo[0].0} + TodoIds(s.pass.todo[1..]);
  }

  lemma TodoShrinks(s: State, s': State, todo: seq<(TaskId, Proc)>,
                    exited: seq<TaskId>, timedOut: seq<TaskId>, exited': seq<TaskId>, timedOut': seq<TaskId>)
    requires todo != [] && TodoApart(s, todo, exited, timedOut) && s'.running == s.running
    requires exited' == exited || exited' == exited + [todo[0].0]
    requires timedOut' == timedOut || timedOut' == timedOut + [todo[0].0]
    ensures TodoApart(s', todo[1..], exited', timedOut')
  {
    assert forall i | 0 <= i < |todo| - 1 :: todo[1..][i] == todo[i + 1];
  }

  lemma ExaminePassApart(s: State, e: Event)
    requires PassApart(s) && Enabled(s, e) && e.Examine?
    ensures PassApart(Next(s, e))
  {
    ExamineEffect(s, e.code, e.pick);
    hide Next, Enabled, TimedOut;
    var p, p' := s.pass, Next(s, e).pass;
    TodoShrinks(s, Next(s, e), p.todo, p.exited, p.timedOut, p'.exited, p'.timedOut);
    assert p.todo[0].0 !in p.exited && p.todo[0].0 !in p.timedOut;
    hide TodoApart;
  }

  /** A step that leaves launches, origins and rows alone keeps launches apart, if it only takes
      tasks off the pass that it also stops tracking or that stay tracked. */
  lemma SameLaunchesApart(s: State, t: State)
    requires LaunchesApart(s) && t.launches == s.launches && t.origin == s.origin && t.history.Keys <= s.history.Keys
    requires forall id | id in t.running :: id in s.running && t.running[id] == s.running[id]
    requires forall id | id in s.running && id !in t.running :: id in Pending(s.pass)
    requires Pending(t.pass) <= Pending(s.pass)
    requires t.pass.Finishing? ==> s.pass == t.pass || t.pass.task in Pending(s.pass)
    ensures LaunchesApart(t)
  {
    hide Pending;
  }

  lemma ExamineKeeps(s: State, e: Event)
    requires Enabled(s, e) && e.Examine?
    ensures var t := Next(s, e);
            t.running == s.running && t.launches == s.launches && t.origin == s.origin && t.pass.Examining?
    ensures Next(s, e).history.Keys == s.history.Keys
  {
    ExamineEffect(s, e.code, e.pick);
    hide Next, Enabled;
  }

  lemma ApartExamineStep(s: State, e: Event)
    requires AllApart(s) && Enabled(s, e) && e.Examine?
    ensures PassApart(Next(s, e)) && LaunchesApart(Next(s, e)) && Pending(Next(s, e).pass) <= Next(s, e).running.Keys
  {
    ExamineKeeps(s, e);
    ExaminePending(s, e);
    ExaminePassApart(s, e);
    hide HandlesOk, OwnRows, PassApart, Pending, Next, Enabled, LaunchesApart;
    SameLaunchesApart(s, Next(s, e));
  }

  lemma ApartTakeStep(s: State, e: Event)
    requires AllApart(s) && Enabled(s, e) && e.TakeTimedOut?
    ensures PassApart(Next(s, e)) && LaunchesApart(Next(s, e)) && Pending(Next(s, e).pass) <= Next(s, e).running.Keys
  {
    ExpireEffect(s, e);
    hide Next, Enabled, HandlesOk, OwnRows, LaunchesApart;
    var due := s.pass.due;
    assert forall i | 0 <= i < |due| - 1 :: due[1..][i] == due[i + 1];
    assert Elements(due) == {due[0]} + Elements(due[1..]);
    SameLaunchesApart(s, Next(s, e));
  }

  lemma ApartEraseStep(s: State, e: Event)
    requires AllApart(s) && Enabled(s, e) && e.EraseExited?
    ensures PassApart(Next(s, e)) && LaunchesApart(Next(s, e)) && Pending(Next(s, e).pass) <= Next(s, e).running.Keys
  {
    ExpireEffect(s, e);
    hide Next, Enabled, HandlesOk, OwnRows, LaunchesApart;
    SameLaunchesApart(s, Next(s, e));
  }

  lemma ApartFinishStep(s: State, e: Event)
    requires AllApart(s) && Enabled(s, e) && e.FinishTimedOut?
    ensures PassApart(Next(s, e)) && LaunchesApart(Next(s, e)) && Pending(Next(s, e).pass) <= Next(s, e).running.Keys
  {
    ExpireEffect(s, e);
    hide Next, Enabled, HandlesOk, OwnRows, LaunchesApart;
    SameLaunchesApart(s, Next(s, e));
  }

  predicate PlainEvent(e: Event) {
    OutsideEvent(e) || e.EndPass?
  }

  lemma ApartPlainStep(s: State, e: Event)
    requires AllApart(s) && Enabled(s, e) && PlainEvent(e)
    ensures PassApart(Next(s, e)) && LaunchesApart(Next(s, e)) && Pending(Next(s, e).pass) <= Next(s, e).running.Keys
  {
    if e.EndPass? { ExpireEffect(s, e); } else { OutsideEffect(s, e); }
    hide Next, Enabled, HandlesOk, OwnRows, LaunchesApart;
    SameLaunchesApart(s, Next(s, e));
  }

  lemma ApartStep(s: State, e: Event)
    requires AllApart(s) && Enabled(s, e) && Apart(s, e)
    ensures AllApart(Next(s, e))
  {
    HandlesStep(s, e);
    OwnRowsStep(s, e);
    hide Next, Enabled, Apart, HandlesOk, OwnRows, PassApart, LaunchesApart, Pending;
    match e
    case BeginLaunch(_, _, _) => ApartBeginStep(s, e);
    case Snapshot(_) => ApartSnapshotStep(s, e);
    case Examine(_, _) => ApartExamineStep(s, e);
    case TakeTimedOut => ApartTakeStep(s, e);
    case EraseExited => ApartEraseStep(s, e);
    case FinishTimedOut(_) => ApartFinishStep(s, e);
    case CreateProcess(_, _, _) => ApartCreateStep(s, e);
    case Track(_) => ApartTrackStep(s, e);
    case _ => if LaunchEvent(e) { ApartEndStep(s, e); } else { ApartPlainStep(s, e); }
  }

  lemma OneMoreKept(s: State, e: Event)
    requires AllApart(s) && Enabled(s, e)
    ensures Next(s, e).overwritten == s.overwritten
  {}

  lemma {:induction false} NothingOverwritten(g: Rules, s: State, es: seq<Event>)
    requires g.apart && AllApart(s) && ObeyingRun(g, s, es)
    ensures After(s, es).overwritten == s.overwritten
    decreases |es|
  {
    hide Next, Enabled, AllApart, Apart;
    if es != [] {
      ApartStep(s, es[0]);
      OneMoreKept(s, es[0]);
      NothingOverwritten(g, Next(s, es[0]), es[1..]);
    }
  }

  lemma StartsApart(tasks: map<TaskId, Task>, now: int, history: Table)
    requires Stored(tasks, history)
    ensures var s := Initial(tasks, now, history); AllApart(s) && s.overwritten == 0 && HandlesOk(s)
  {}
}
