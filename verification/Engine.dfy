/** The scheduler engine as a state machine. Each event is a stretch of one thread's code in
    which it enters the lock at most once, or one thing the surroundings do. Looking at one
    entry of a snapshot, with what it reads and writes in the database, is one event. Launches
    may be in progress on any number of threads. */
module Engine {
  import opened Common
  import opened History

  type Handle = nat
  type Thread = nat

  /** The scheduler's own thread; every other number is a client thread. */
  const WORKER: Thread := 0

  /** Clock readings count units of 100 ns. */
  const SECOND: int := 10_000_000
  const MINUTE: int := 600_000_000

  datatype Overlap = WaitComplete | WaitNext | StartAnother | OtherOverlap

  /** The columns of a task that the engine reads. */
  datatype Task = Task(enabled: bool, overlap: Overlap, timeout: Option<int>, kill: bool)

  /** An entry of the running map. */
  datatype Proc = Proc(handle: Handle, start: int)

  /** A launch in progress: row inserted; process created but not tracked yet; process tracked
      but its number not written to the row yet; creation failed and that not written yet. */
  datatype Launch =
    | Begun(task: TaskId, row: RowId)
    | Created(task: TaskId, row: RowId, handle: Handle, pid: int)
    | Tracked(task: TaskId, row: RowId, pid: int)
    | Refused(task: TaskId, row: RowId)

  /** Which launch created a process. */
  datatype Origin = Origin(task: TaskId, row: RowId, thread: Thread)

  /** Where the scheduler thread stands inside check_timeouts. */
  datatype Pass =
    | Idle
    | Starting(began: int)
    | Examining(began: int, todo: seq<(TaskId, Proc)>, exited: seq<TaskId>, timedOut: seq<TaskId>)
    | Expiring(due: seq<TaskId>)
    | Finishing(task: TaskId, proc: Proc, due: seq<TaskId>)

  /** `issued`, `closed`, `live`, `origin`, `overwritten` and `faulty` are bookkeeping about the
      operating system: handles ever opened and closed, processes still reported active, the
      launch each handle came from, how many tracked entries a launch has overwritten, and
      whether a closed handle was ever queried or closed again. */
  datatype State = State(
    now: int,
    tasks: map<TaskId, Task>,
    history: Table,
    usedRows: set<RowId>,
    running: map<TaskId, Proc>,
    launches: map<Thread, Launch>,
    pass: Pass,
    issued: set<Handle>,
    closed: set<Handle>,
    live: set<Handle>,
    origin: map<Handle, Origin>,
    overwritten: nat,
    faulty: bool)

  datatype Event =
    | BeginLaunch(thread: Thread, id: TaskId, row: RowId)
    | CreateFails(thread: Thread)
    | CreateProcess(thread: Thread, handle: Handle, pid: int)
    | Track(thread: Thread)
    | EndLaunch(thread: Thread)
    | BeginPass
    | Snapshot(order: seq<TaskId>)
    | Examine(code: int, pick: Option<RowId>)
    | EraseExited
    | TakeTimedOut
    | FinishTimedOut(pick: Option<RowId>)
    | EndPass
    | ProcessExits(handle: Handle)
    | SetClock(time: int)
    | EditTasks(edited: map<TaskId, Task>)

  /** A service that has just been started on a database with these tasks and this history. */
  function Initial(tasks: map<TaskId, Task>, now: int, history: Table): State {
    State(now, tasks, history, history.Keys, map[], map[], Idle, {}, {}, {}, map[], 0, false)
  }

  /** What the foreign key guarantees of a database: every row belongs to a task. */
  predicate Stored(tasks: map<TaskId, Task>, history: Table) {
    forall r | r in history :: history[r].task in tasks
  }

  /** The start stamp of a row has a resolution of one second. */
  function Stamp(now: int): int {
    now / SECOND
  }

  /** Whole minutes in a duration, truncated toward zero. */
  function WholeMinutes(d: int): int {
    if d >= 0 then d / MINUTE else -(-d / MINUTE)
  }

  predicate TimedOut(task: Task, began: int, proc: Proc) {
    task.timeout.Some? && WholeMinutes(began - proc.start) >= task.timeout.value
  }

  ghost predicate Enabled(s: State, e: Event) {
    match e
    case BeginLaunch(th, id, row) => th !in s.launches && id in s.tasks && row !in s.usedRows
    case CreateFails(th) => th in s.launches && s.launches[th].Begun?
    case CreateProcess(th, h, _) => th in s.launches && s.launches[th].Begun? && h !in s.issued
    case Track(th) => th in s.launches && s.launches[th].Created?
    case EndLaunch(th) => th in s.launches && (s.launches[th].Tracked? || s.launches[th].Refused?)
    case BeginPass => s.pass.Idle?
    case Snapshot(order) => s.pass.Starting? && NoDuplicates(order) && Elements(order) == s.running.Keys
    case Examine(_, pick) =>
      s.pass.Examining? && s.pass.todo != [] && IsNewest(s.history, s.pass.todo[0].0, pick)
    case EraseExited => s.pass.Examining? && s.pass.todo == []
    case TakeTimedOut => s.pass.Expiring? && s.pass.due != []
    case FinishTimedOut(pick) => s.pass.Finishing? && IsNewest(s.history, s.pass.task, pick)
    case EndPass => s.pass.Expiring? && s.pass.due == []
    case ProcessExits(h) => h in s.live
    case SetClock(_) => true
    case EditTasks(_) => true
  }

  // ---- launching ----

  function BeginLaunchNext(s: State, th: Thread, id: TaskId, row: RowId): State {
    s.(history := s.history[row := Row(id, Stamp(s.now), None, None, 0, Running, NoMessage)],
       usedRows := s.usedRows + {row},
       launches := s.launches[th := Begun(id, row)])
  }

  function CreateFailsNext(s: State, th: Thread): State
    requires th in s.launches
  {
    s.(launches := s.launches[th := Refused(s.launches[th].task, s.launches[th].row)])
  }

  function CreateProcessNext(s: State, th: Thread, h: Handle, pid: int): State
    requires th in s.launches
  {
    var l := s.launches[th];
    s.(issued := s.issued + {h}, live := s.live + {h}, origin := s.origin[h := Origin(l.task, l.row, th)],
       launches := s.launches[th := Created(l.task, l.row, h, pid)])
  }

  /** Storing the entry replaces whatever was tracked under the same task. */
  function TrackNext(s: State, th: Thread): State
    requires th in s.launches && s.launches[th].Created?
  {
    var l := s.launches[th];
    s.(running := s.running[l.task := Proc(l.handle, s.now)],
       overwritten := if l.task in s.running then s.overwritten + 1 else s.overwritten,
       launches := s.launches[th := Tracked(l.task, l.row, l.pid)])
  }

  /** The launcher writes back its own copy of the row, which still says Running. */
  function EndLaunchNext(s: State, th: Thread): State
    requires th in s.launches && (s.launches[th].Tracked? || s.launches[th].Refused?)
  {
    var l := s.launches[th];
    var pid := if l.Tracked? then l.pid else 0;
    s.(history := Update(s.history, l.row, Row(l.task, 0, None, None, pid, Running, NoMessage)),
       launches := s.launches - {th})
  }

  // ---- checking ----

  /** The clock is read before the lock is taken. */
  function SnapshotNext(s: State, order: seq<TaskId>): State
    requires s.pass.Starting? && Elements(order) == s.running.Keys
  {
    assert forall i | 0 <= i < |order| :: order[i] in Elements(order);
    s.(pass := Examining(s.pass.began, seq(|order|, i requires 0 <= i < |order| => (order[i], s.running[order[i]])), [], []))
  }

  function RecordExit(t: Table, pick: Option<RowId>, now: int, code: int): Table
    requires pick.Some? ==> pick.value in t
  {
    if pick.None? then t
    else Update(t, pick.value, t[pick.value].(end := Some(now), exitCode := Some(code), status := Completed))
  }

  function RecordTimeout(t: Table, pick: Option<RowId>, now: int, kill: bool): Table
    requires pick.Some? ==> pick.value in t
  {
    if pick.None? then t
    else Update(t, pick.value, t[pick.value].(
      end := Some(now), status := Timeout, message := if kill then KilledByTimeout else TimeoutExceeded))
  }

  /** One entry of the snapshot. A process that has exited gets its row completed and its
      handle closed here; the entry itself stays until the exited entries are erased. */
  function ExamineNext(s: State, code: int, pick: Option<RowId>): State
    requires s.pass.Examining? && s.pass.todo != []
    requires pick.Some? ==> pick.value in s.history
  {
    var (id, proc) := s.pass.todo[0];
    var rest := s.pass.(todo := s.pass.todo[1..]);
    if id !in s.tasks then s.(pass := rest)
    else if proc.handle !in s.live then
      s.(history := RecordExit(s.history, pick, Stamp(s.now), code),
         closed := s.closed + {proc.handle},
         faulty := s.faulty || proc.handle in s.closed,
         pass := rest.(exited := rest.exited + [id]))
    else
      s.(faulty := s.faulty || proc.handle in s.closed,
         pass := if TimedOut(s.tasks[id], s.pass.began, proc) then rest.(timedOut := rest.timedOut + [id]) else rest)
  }

  function EraseExitedNext(s: State): State
    requires s.pass.Examining?
  {
    s.(running := s.running - Elements(s.pass.exited), pass := Expiring(s.pass.timedOut))
  }

  function TakeTimedOutNext(s: State): State
    requires s.pass.Expiring? && s.pass.due != []
  {
    var id, rest := s.pass.due[0], s.pass.due[1..];
    if id !in s.running then s.(pass := Expiring(rest))
    else s.(running := s.running - {id}, pass := Finishing(id, s.running[id], rest))
  }

  function FinishTimedOutNext(s: State, pick: Option<RowId>): State
    requires s.pass.Finishing?
    requires pick.Some? ==> pick.value in s.history
  {
    var h := s.pass.proc.handle;
    var kill := s.pass.task in s.tasks && s.tasks[s.pass.task].kill;
    s.(live := if kill then s.live - {h} else s.live,
       history := RecordTimeout(s.history, pick, Stamp(s.now), kill),
       closed := s.closed + {h},
       faulty := s.faulty || h in s.closed,
       pass := Expiring(s.pass.due))
  }

  /** Removing a task removes its history. */
  function CascadeDelete(t: Table, tasks: map<TaskId, Task>): Table {
    map r | r in t && t[r].task in tasks :: t[r]
  }

  function EditTasksNext(s: State, edited: map<TaskId, Task>): State {
    s.(tasks := edited, history := CascadeDelete(s.history, edited))
  }

  ghost function Next(s: State, e: Event): State
    requires Enabled(s, e)
  {
    match e
    case BeginLaunch(th, id, row) => BeginLaunchNext(s, th, id, row)
    case CreateFails(th) => CreateFailsNext(s, th)
    case CreateProcess(th, h, pid) => CreateProcessNext(s, th, h, pid)
    case Track(th) => TrackNext(s, th)
    case EndLaunch(th) => EndLaunchNext(s, th)
    case BeginPass => s.(pass := Starting(s.now))
    case Snapshot(order) => SnapshotNext(s, order)
    case Examine(code, pick) => ExamineNext(s, code, pick)
    case EraseExited => EraseExitedNext(s)
    case TakeTimedOut => TakeTimedOutNext(s)
    case FinishTimedOut(pick) => FinishTimedOutNext(s, pick)
    case EndPass => s.(pass := Idle)
    case ProcessExits(h) => s.(live := s.live - {h})
    case SetClock(time) => s.(now := time)
    case EditTasks(edited) => EditTasksNext(s, edited)
  }

  predicate Mentions(entries: seq<(TaskId, Proc)>, id: TaskId) {
    exists i | 0 <= i < |entries| :: entries[i].0 == id
  }

  predicate NoEdits(es: seq<Event>) {
    forall e | e in es :: !e.EditTasks?
  }

  // ---- runs ----

  /** Every event is possible where it happens. */
  ghost predicate Runs(s: State, es: seq<Event>)
    decreases |es|
  {
    es == [] || (Enabled(s, es[0]) && Runs(Next(s, es[0]), es[1..]))
  }

  ghost function After(s: State, es: seq<Event>): State
    requires Runs(s, es)
    decreases |es|
  {
    if es == [] then s else After(Next(s, es[0]), es[1..])
  }

  lemma {:induction false} RunsConcat(s: State, a: seq<Event>, b: seq<Event>)
    requires Runs(s, a)
    ensures Runs(s, a + b) <==> Runs(After(s, a), b)
    ensures Runs(s, a + b) ==> After(s, a + b) == After(After(s, a), b)
    decreases |a|
  {
    if a == [] {
      assert a + b == b;
    } else {
      assert (a + b)[1..] == a[1..] + b;
      RunsConcat(Next(s, a[0]), a[1..], b);
    }
  }

  lemma RunsOne(s: State, e: Event)
    ensures Runs(s, [e]) <==> Enabled(s, e)
    ensures Runs(s, [e]) ==> After(s, [e]) == Next(s, e)
  {
    assert [e][1..] == [];
    if Enabled(s, e) {
      assert Runs(Next(s, e), []);
    }
  }
}
