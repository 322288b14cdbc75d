/** Which history row a finished process is recorded in. */
module Attribution {
  import opened Common
  import opened History
  import opened Engine
  import opened Effects
  import opened Handles
  import opened Ownership
  import opened Discipline

  /** `r` is open and strictly newer than every other row of the task, unless the rows of the
      task have been deleted. */
  ghost predicate OpenNewest(t: Table, id: TaskId, r: RowId) {
    RowsOf(t, id) == {} ||
    (&& r in RowsOf(t, id) && t[r].end.None? && t[r].status == Running
     && forall x | x in RowsOf(t, id) && x != r :: t[x].start < t[r].start)
  }

  /** The pass has recorded the exit already and will erase the entry. */
  predicate Recorded(s: State, id: TaskId) {
    s.pass.Examining? && id in s.pass.exited
  }

  predicate OpenRow(t: Table, r: RowId) {
    r in t ==> t[r].end.None? && t[r].status == Running
  }

  ghost predicate EntryRowsOk(s: State) {
    forall id | id in s.running && !Recorded(s, id) ::
      RowOf(s, id).Some? && OpenNewest(s.history, id, RowOf(s, id).value)
  }

  ghost predicate LaunchRowsOk(s: State) {
    forall th | th in s.launches :: var l := s.launches[th];
      OpenRow(s.history, l.row) && (Engaged(s, th) ==> OpenNewest(s.history, l.task, l.row))
  }

  ghost predicate HandRowOk(s: State) {
    s.pass.Finishing? ==>
      s.pass.proc.handle in s.origin && OpenNewest(s.history, s.pass.task, s.origin[s.pass.proc.handle].row)
  }

  ghost predicate RowsOk(s: State) {
    EntryRowsOk(s) && LaunchRowsOk(s) && HandRowOk(s)
  }

  ghost predicate AttributionOk(s: State) {
    AllApart(s) && RowsOk(s)
  }

  // ---- what a step may do ----

  /** Rows with an end time stay as they are, or go with their task. */
  predicate EndedKept(s: State, s': State) {
    forall r | r in s.history && s.history[r].end.Some? && r in s'.history :: s'.history[r] == s.history[r]
  }

  /** The process whose end the event records. */
  function Subject(s: State, e: Event): Option<Handle> {
    if e.Examine? && s.pass.Examining? && s.pass.todo != [] && s.pass.todo[0].0 in s.tasks
       && s.pass.todo[0].1.handle !in s.live
      then Some(s.pass.todo[0].1.handle)
    else if e.FinishTimedOut? && s.pass.Finishing? then Some(s.pass.proc.handle)
    else None
  }

  /** Any row the event changes to ended is the row of the launch of the process whose end is
      recorded. */
  ghost predicate EndsOwnRow(s: State, e: Event, s': State) {
    forall r | r in s.history && r in s'.history && s.history[r].end.None? && s'.history[r].end.Some? ::
      Subject(s, e).Some? && Subject(s, e).value in s.origin && s.origin[Subject(s, e).value].row == r
  }

  /** The ending the event records. */
  function EndingOf(s: State, e: Event): Ending {
    if e.Examine? then Exited(e.code)
    else Expired(s.pass.Finishing? && s.pass.task in s.tasks && s.tasks[s.pass.task].kill)
  }

  /** If the end of a process is recorded, the row looked up is that of its launch, unless that
      row has been deleted, and the row, open until then, shows the ending. */
  ghost predicate RecordsEnd(s: State, e: Event, s': State) {
    Subject(s, e).Some? ==>
      var h := Subject(s, e).value;
      && h in s.origin
      && var r := s.origin[h].row;
         && Picked(e) == (if r in s.history then Some(r) else None)
         && (r in s.history ==>
               s.history[r].end.None? && r in s'.history &&
               Shows(s.history[r], s'.history[r], Stamp(s.now), EndingOf(s, e)))
  }

  /** The row a lookup of the newest row has come up with. */
  function Picked(e: Event): Option<RowId> {
    match e
    case Examine(_, pick) => pick
    case FinishTimedOut(pick) => pick
    case _ => None
  }

  ghost predicate GoodStep(s: State, e: Event, s': State) {
    EndedKept(s, s') && EndsOwnRow(s, e, s') && RecordsEnd(s, e, s')
  }

  lemma PickIsOwn(t: Table, id: TaskId, r: RowId, pick: Option<RowId>)
    requires OpenNewest(t, id, r) && IsNewest(t, id, pick) && RowBelongs(t, r, id)
    ensures pick == if r in t then Some(r) else None
    ensures r in t ==> t[r].end.None?
  {
    assert r in t ==> r in RowsOf(t, id);
  }

  // ---- what stays true of rows that a step does not write ----

  /** The open newest rows are still so, with one task perhaps excepted. */
  ghost predicate KeepsNewest(t: Table, u: Table, except: Option<TaskId>) {
    forall id: TaskId, r: RowId | Some(id) != except && OpenNewest(t, id, r) :: OpenNewest(u, id, r)
  }

  lemma EntryRowsKept(s: State, t: State, except: Option<TaskId>)
    requires EntryRowsOk(s) && KeepsNewest(s.history, t.history, except)
    requires forall id | id in t.running && !Recorded(t, id) ::
               id in s.running && !Recorded(s, id) && RowOf(t, id) == RowOf(s, id) && Some(id) != except
    ensures EntryRowsOk(t)
  {
    hide OpenNewest, RowOf;
  }

  lemma LaunchRowsKept(s: State, t: State, except: Option<TaskId>)
    requires LaunchRowsOk(s) && KeepsNewest(s.history, t.history, except)
    requires forall th | th in t.launches ::
               && th in s.launches && t.launches[th].task == s.launches[th].task && t.launches[th].row == s.launches[th].row
               && (OpenRow(s.history, s.launches[th].row) ==> OpenRow(t.history, s.launches[th].row))
               && (Engaged(t, th) ==> Engaged(s, th) && Some(s.launches[th].task) != except)
    ensures LaunchRowsOk(t)
  {
    hide OpenNewest, OpenRow, Engaged;
  }

  lemma HandRowKept(s: State, t: State, except: Option<TaskId>)
    requires HandRowOk(s) && KeepsNewest(s.history, t.history, except) && t.pass == s.pass
    requires s.pass.Finishing? ==> Some(s.pass.task) != except
    requires forall h | h in s.origin :: h in t.origin && t.origin[h] == s.origin[h]
    ensures HandRowOk(t)
  {
    hide OpenNewest;
  }

  /** A step that writes nothing records no end. */
  lemma NothingWritten(s: State, e: Event, t: State)
    requires t.history == s.history && Subject(s, e).None?
    ensures GoodStep(s, e, t) && KeepsNewest(s.history, t.history, None)
  {}

  // ---- launches ----

  lemma RowsBeginStep(s: State, e: Event)
    requires AttributionOk(s) && Enabled(s, e) && Apart(s, e) && FreshStamp(s, e) && e.BeginLaunch?
    ensures RowsOk(Next(s, e)) && GoodStep(s, e, Next(s, e))
  {
    BeginEffect(s, e);
    BeginFacts(s, e);
    hide Next, Enabled, AllApart, RowsOk, Apart;
    var t := Next(s, e);
    NewRowIsNewest(s.history, e.row, t.history[e.row]);
    hide OpenNewest, RowOf;
    EntryRowsKept(s, t, Some(e.id));
    HandRowKept(s, t, Some(e.id));
  }

  lemma BeginFacts(s: State, e: Event)
    requires AllApart(s) && Apart(s, e) && e.BeginLaunch?
    ensures forall th | th in s.launches && Engaged(s, th) :: s.launches[th].task != e.id
    ensures forall th | th in s.launches :: s.launches[th].row in s.usedRows
    ensures s.history.Keys <= s.usedRows && e.id !in s.running && !(s.pass.Finishing? && s.pass.task == e.id)
  {}

  lemma NewRowIsNewest(t: Table, r: RowId, row: Row)
    requires r !in t && row.end.None? && row.status == Running
    requires forall x | x in RowsOf(t, row.task) :: t[x].start < row.start
    ensures KeepsNewest(t, t[r := row], Some(row.task)) && OpenNewest(t[r := row], row.task, r)
  {
    var u := t[r := row];
    forall id | id != row.task ensures RowsOf(u, id) == RowsOf(t, id) {}
    assert RowsOf(u, row.task) == RowsOf(t, row.task) + {r};
  }

  lemma RowsCreateStep(s: State, e: Event)
    requires AttributionOk(s) && Enabled(s, e) && (e.CreateFails? || e.CreateProcess?)
    ensures RowsOk(Next(s, e)) && GoodStep(s, e, Next(s, e))
  {
    if e.CreateFails? { CreateFailsEffect(s, e); } else { CreateEffect(s, e); }
    var t := Next(s, e);
    assert forall id | id in s.running :: s.running[id].handle in s.issued;
    assert s.origin.Keys == s.issued;
    hide Next, Enabled, AllApart, OpenNewest;
    NothingWritten(s, e, t);
    hide GoodStep;
    EntryRowsKept(s, t, None);
    LaunchRowsKept(s, t, None);
    HandRowKept(s, t, None);
  }

  lemma RowsTrackStep(s: State, e: Event)
    requires AttributionOk(s) && Enabled(s, e) && e.Track?
    ensures RowsOk(Next(s, e)) && GoodStep(s, e, Next(s, e))
  {
    TrackEffect(s, e);
    var t, l := Next(s, e), s.launches[e.thread];
    assert Engaged(s, e.thread);
    assert l.handle in s.origin && s.origin[l.handle].row == l.row;
    hide Next, Enabled, AllApart, OpenNewest;
    NothingWritten(s, e, t);
    hide GoodStep;
    LaunchRowsKept(s, t, None);
    HandRowKept(s, t, None);
    hide LaunchRowsOk, HandRowOk;
    assert RowOf(t, l.task) == Some(l.row);
    forall id | id in t.running && !Recorded(t, id) && id != l.task ensures RowOf(t, id) == RowOf(s, id) {}
  }

  lemma RowsEndLaunchStep(s: State, e: Event)
    requires AttributionOk(s) && Enabled(s, e) && e.EndLaunch?
    ensures RowsOk(Next(s, e)) && GoodStep(s, e, Next(s, e))
  {
    EndLaunchEffect(s, e);
    var t, l := Next(s, e), s.launches[e.thread];
    hide Next, Enabled, AllApart;
    OpenRowRewritten(s.history, l.row, l.task, if l.Tracked? then l.pid else 0);
    hide OpenNewest, Update;
    EntryRowsKept(s, t, None);
    LaunchRowsKept(s, t, None);
    HandRowKept(s, t, None);
  }

  lemma OpenRowRewritten(t: Table, r: RowId, id: TaskId, pid: int)
    requires OpenRow(t, r)
    ensures var u := Update(t, r, Row(id, 0, None, None, pid, Running, NoMessage));
            && KeepsNewest(t, u, None) && u.Keys == t.Keys && (forall x | x in t && x != r :: u[x] == t[x])
            && (forall x :: OpenRow(t, x) ==> OpenRow(u, x))
            && (r in t ==> t[r].end.None? && u[r].end.None?)
  {
    var u := Update(t, r, Row(id, 0, None, None, pid, Running, NoMessage));
    forall x ensures RowsOf(u, x) == RowsOf(t, x) {}
  }

  // ---- the pass ----

  /** The entry under examination is still tracked and not recorded, and no launch is in
      progress for its task. */
  lemma ExaminedEntry(s: State)
    requires AllApart(s) && s.pass.Examining? && s.pass.todo != []
    ensures var (id, proc) := s.pass.todo[0];
            && id in s.running && s.running[id] == proc && !Recorded(s, id)
            && proc.handle in s.origin && s.origin[proc.handle].task == id
            && Finishable(s, id, s.origin[proc.handle].row)
  {
    assert s.pass.todo[0].0 in Pending(s.pass);
  }

  /** The row belongs to the task, no launch of the task can still do anything, and no launch has
      the row for its own. */
  ghost predicate Finishable(s: State, id: TaskId, r: RowId) {
    && RowBelongs(s.history, r, id)
    && forall th | th in s.launches ::
         && (s.launches[th].task == id ==> !Engaged(s, th))
         && (s.launches[th].row == r ==> r !in s.history)
  }

  /** `u` is `t` with the ending recorded in row `pick`. */
  ghost predicate EndWritten(t: Table, u: Table, pick: Option<RowId>, now: int, e: Ending) {
    match pick
    case None => u == t
    case Some(r) => r in t && r in u && u == t[r := u[r]] && Shows(t[r], u[r], now, e)
  }

  lemma EndsWritten(t: Table, pick: Option<RowId>, now: int, code: int, kill: bool)
    requires pick.Some? ==> pick.value in t
    ensures EndWritten(t, RecordExit(t, pick, now, code), pick, now, Exited(code))
    ensures EndWritten(t, RecordTimeout(t, pick, now, kill), pick, now, Expired(kill))
  {}

  /** Recording an end in the open newest row of `id` leaves the rows of the other tasks as they
      were. */
  lemma RecordingKeeps(t: Table, u: Table, id: TaskId, pick: Option<RowId>, now: int, e: Ending)
    requires IsNewest(t, id, pick) && EndWritten(t, u, pick, now, e)
    ensures KeepsNewest(t, u, Some(id))
    ensures u.Keys == t.Keys && forall r | r in u && pick != Some(r) :: u[r] == t[r]
  {
    forall x ensures RowsOf(u, x) == RowsOf(t, x) {}
  }

  /** The end of the process with handle `h` goes into its row. */
  lemma EndIsGood(s: State, e: Event, t: State, id: TaskId, h: Handle)
    requires Subject(s, e) == Some(h) && h in s.origin && RowBelongs(s.history, s.origin[h].row, id)
    requires OpenNewest(s.history, id, s.origin[h].row) && IsNewest(s.history, id, Picked(e))
    requires EndWritten(s.history, t.history, Picked(e), Stamp(s.now), EndingOf(s, e))
    ensures GoodStep(s, e, t)
  {
    PickIsOwn(s.history, id, s.origin[h].row, Picked(e));
    hide OpenNewest, IsNewest, Subject;
  }

  lemma RowsExamineStep(s: State, e: Event)
    requires AttributionOk(s) && Enabled(s, e) && e.Examine?
    ensures RowsOk(Next(s, e)) && GoodStep(s, e, Next(s, e))
  {
    var (id, proc) := s.pass.todo[0];
    var t := Next(s, e);
    ExaminedEntry(s);
    ExamineEffect(s, e.code, e.pick);
    ExamineIs(s, e.code, e.pick);
    if id in s.tasks && proc.handle !in s.live {
      EndsWritten(s.history, e.pick, Stamp(s.now), e.code, false);
      hide Next, Enabled, AllApart, RecordExit, SameOwners, Pending;
      assert RowOf(s, id) == Some(s.origin[proc.handle].row);
      RecordingKeeps(s.history, t.history, id, e.pick, Stamp(s.now), EndingOf(s, e));
      PickIsOwn(s.history, id, s.origin[proc.handle].row, e.pick);
      EndIsGood(s, e, t, id, proc.handle);
      hide GoodStep, OpenNewest, IsNewest, EndWritten;
      OthersKept(s, t, id, s.origin[proc.handle].row);
    } else {
      hide Next, Enabled, AllApart, OpenNewest, SameOwners, Pending;
      assert t.history == s.history;
      NothingWritten(s, e, t);
      hide GoodStep;
      EntryRowsKept(s, t, None);
      LaunchRowsKept(s, t, None);
    }
  }

  /** After the end of a process of task `id` has been recorded in row `r`, and its entry has been
      marked or is out of the map, the rows of the others are as they should be. */
  lemma OthersKept(s: State, t: State, id: TaskId, r: RowId)
    requires EntryRowsOk(s) && LaunchRowsOk(s) && Finishable(s, id, r)
    requires KeepsNewest(s.history, t.history, Some(id)) && t.history.Keys == s.history.Keys
    requires forall x | x in t.history && x != r :: t.history[x] == s.history[x]
    requires t.launches == s.launches && t.origin == s.origin && t.running == s.running && !t.pass.Finishing?
    requires id in s.running ==> Recorded(t, id)
    requires forall x | Recorded(s, x) && x in s.running :: Recorded(t, x)
    ensures RowsOk(t)
  {
    hide OpenNewest;
    EntryRowsKept(s, t, Some(id));
    LaunchRowsKept(s, t, Some(id));
  }

  lemma RowsFinishStep(s: State, e: Event)
    requires AttributionOk(s) && Enabled(s, e) && e.FinishTimedOut?
    ensures RowsOk(Next(s, e)) && GoodStep(s, e, Next(s, e))
  {
    var t, id, h := Next(s, e), s.pass.task, s.pass.proc.handle;
    FinishedEntry(s);
    ExpireEffect(s, e);
    FinishIs(s, e);
    EndsWritten(s.history, e.pick, Stamp(s.now), 0, id in s.tasks && s.tasks[id].kill);
    hide Next, Enabled, AllApart, RecordTimeout, SameOwners, Pending;
    RecordingKeeps(s.history, t.history, id, e.pick, Stamp(s.now), EndingOf(s, e));
    PickIsOwn(s.history, id, s.origin[h].row, e.pick);
    EndIsGood(s, e, t, id, h);
    hide GoodStep, OpenNewest, IsNewest, EndWritten;
    OthersKept(s, t, id, s.origin[h].row);
  }

  lemma FinishedEntry(s: State)
    requires AllApart(s) && s.pass.Finishing?
    ensures var id, h := s.pass.task, s.pass.proc.handle;
            id !in s.running && h in s.origin && s.origin[h].task == id && Finishable(s, id, s.origin[h].row)
  {}

  // ---- the rest ----

  lemma RowsEditStep(s: State, e: Event)
    requires AttributionOk(s) && Enabled(s, e) && e.EditTasks?
    ensures RowsOk(Next(s, e)) && GoodStep(s, e, Next(s, e))
  {
    OutsideEffect(s, e);
    var t := Next(s, e);
    hide Next, Enabled, AllApart;
    DeletedRows(s.history, e.edited);
    hide OpenNewest;
    EntryRowsKept(s, t, None);
    LaunchRowsKept(s, t, None);
    HandRowKept(s, t, None);
  }

  lemma DeletedRows(t: Table, tasks: map<TaskId, Task>)
    ensures KeepsNewest(t, CascadeDelete(t, tasks), None)
  {
    var u := CascadeDelete(t, tasks);
    forall id ensures RowsOf(u, id) == if id in tasks then RowsOf(t, id) else {} {}
  }

  lemma RowsOtherStep(s: State, e: Event)
    requires AttributionOk(s) && Enabled(s, e)
    requires !LaunchEvent(e) && !e.Examine? && !e.FinishTimedOut? && !e.EditTasks?
    ensures RowsOk(Next(s, e)) && GoodStep(s, e, Next(s, e))
  {
    var t := Next(s, e);
    if PassEvent(e) { ExpireEffect(s, e); }
    else if e.Snapshot? { SnapshotEffect(s, e); }
    else { OutsideEffect(s, e); }
    OtherKeepsHistory(s, e);
    hide Next, Enabled, AllApart, OpenNewest, SameOwners;
    NothingWritten(s, e, t);
    hide GoodStep;
    EntryRowsKept(s, t, None);
    LaunchRowsKept(s, t, None);
  }

  lemma OtherKeepsHistory(s: State, e: Event)
    requires Enabled(s, e) && !LaunchEvent(e) && !e.Examine? && !e.FinishTimedOut? && !e.EditTasks?
    ensures Next(s, e).history == s.history
  {}

  lemma AttributionStep(s: State, e: Event)
    requires AttributionOk(s) && Enabled(s, e) && Apart(s, e) && FreshStamp(s, e)
    ensures AttributionOk(Next(s, e)) && GoodStep(s, e, Next(s, e))
  {
    hide Next, GoodStep, RowsOk, Enabled, Apart, FreshStamp, AllApart;
    ApartStep(s, e);
    match e
    case BeginLaunch(_, _, _) => RowsBeginStep(s, e);
    case EndLaunch(_) => RowsEndLaunchStep(s, e);
    case Examine(_, _) => RowsExamineStep(s, e);
    case FinishTimedOut(_) => RowsFinishStep(s, e);
    case EditTasks(_) => RowsEditStep(s, e);
    case Track(_) => RowsTrackStep(s, e);
    case _ => if LaunchEvent(e) { RowsCreateStep(s, e); } else { RowsOtherStep(s, e); }
  }

  lemma {:induction false} AttributionRun(g: Rules, s: State, es: seq<Event>)
    requires AttributionOk(s) && g.apart && g.stamps && ObeyingRun(g, s, es)
    ensures AttributionOk(After(s, es))
    ensures EndedKept(s, After(s, es)) && RowsPersist(s, After(s, es))
    decreases |es|
  {
    hide AttributionOk, Next, Obeys, Enabled;
    if es != [] {
      var m := Next(s, es[0]);
      ObeysBoth(g, s, es[0]);
      AttributionStep(s, es[0]);
      UsedRows(s);
      RowsPersistStep(s, es[0]);
      AttributionRun(g, m, es[1..]);
      KeptOn(s, m, After(m, es[1..]));
    }
  }

  lemma KeptOn(a: State, b: State, c: State)
    requires EndedKept(a, b) && EndedKept(b, c) && RowsPersist(a, b) && RowsPersist(b, c)
    requires a.history.Keys <= a.usedRows
    ensures EndedKept(a, c) && RowsPersist(a, c)
  {}

  lemma ObeysBoth(g: Rules, s: State, e: Event)
    requires g.apart && g.stamps && Obeys(g, s, e)
    ensures Apart(s, e) && FreshStamp(s, e)
  {}

  lemma UsedRows(s: State)
    requires AttributionOk(s)
    ensures s.history.Keys <= s.usedRows
  {}

  lemma InitialOk(tasks: map<TaskId, Task>, now: int, history: Table)
    requires Stored(tasks, history)
    ensures AttributionOk(Initial(tasks, now, history))
  {}

  /** In every run that keeps launches and passes apart and never repeats a stamp: whenever the
      end of a process is recorded, it is recorded in the row of its launch, and in no other.
      After an exit the row is completed and has the exit code; after a timeout it says so, with
      the message for being killed or not. A row that has an end time is never written again.
      Launches may still come from any threads and overlap passes, and tasks may be edited at any
      time. */
  lemma HistoryAttribution(tasks: map<TaskId, Task>, now: int, history: Table, a: seq<Event>, e: Event, b: seq<Event>)
    requires Stored(tasks, history)
    requires ObeyingRun(Rules(true, true, false, false), Initial(tasks, now, history), a + ([e] + b))
    ensures var g := Rules(true, true, false, false); var s0 := Initial(tasks, now, history);
            Runs(s0, a) && Enabled(After(s0, a), e) && Runs(s0, a + ([e] + b))
    ensures var s := After(Initial(tasks, now, history), a);
            && EndsOwnRow(s, e, Next(s, e)) && RecordsEnd(s, e, Next(s, e))
            && EndedKept(s, After(Initial(tasks, now, history), a + ([e] + b)))
  {
    hide Next, Enabled, Obeys, AttributionOk, EndsOwnRow, RecordsEnd, EndedKept;
    var g, s0 := Rules(true, true, false, false), Initial(tasks, now, history);
    InitialOk(tasks, now, history);
    ObeyingConcat(g, s0, a, [e] + b);
    RunsConcat(s0, a, [e] + b);
    AttributionRun(g, s0, a);
    var s := After(s0, a);
    assert ([e] + b)[0] == e;
    ObeysBoth(g, s, e);
    AttributionStep(s, e);
    AttributionRun(g, s, [e] + b);
  }

  // ---- rows from before the start ----

  /** The rows `stored` are as they were, unless deleted, and no launch has one of them for its
      own. */
  ghost predicate StoredKept(stored: Table, s: State) {
    && stored.Keys <= s.usedRows
    && (forall r | r in stored && r in s.history :: s.history[r] == stored[r])
    && (forall th | th in s.launches :: s.launches[th].row !in stored)
    && (forall h | h in s.origin :: s.origin[h].row !in stored)
  }

  lemma StoredKeptOn(stored: Table, s: State, t: State, r: RowId)
    requires StoredKept(stored, s) && t.launches == s.launches && t.origin == s.origin && t.usedRows == s.usedRows
    requires r in stored ==> r !in s.history
    requires forall x | x in t.history && x != r :: x in s.history && t.history[x] == s.history[x]
    requires r in t.history ==> r in s.history
    ensures StoredKept(stored, t)
  {}

  lemma StoredExamineStep(stored: Table, s: State, e: Event)
    requires StoredKept(stored, s) && AttributionOk(s) && Enabled(s, e) && e.Examine?
    ensures StoredKept(stored, Next(s, e))
  {
    var (id, proc) := s.pass.todo[0];
    ExaminedEntry(s);
    ExamineEffect(s, e.code, e.pick);
    ExamineIs(s, e.code, e.pick);
    var r := s.origin[proc.handle].row;
    hide Next, Enabled, AllApart, RecordExit, SameOwners;
    if id in s.tasks && proc.handle !in s.live {
      EndsWritten(s.history, e.pick, Stamp(s.now), e.code, false);
      RecordingKeeps(s.history, Next(s, e).history, id, e.pick, Stamp(s.now), EndingOf(s, e));
      PickIsOwn(s.history, id, r, e.pick);
    }
    hide OpenNewest, IsNewest, StoredKept;
    assert r !in stored by { StoredOrigin(stored, s, proc.handle); }
    StoredKeptOn(stored, s, Next(s, e), r);
  }

  lemma StoredOrigin(stored: Table, s: State, h: Handle)
    requires StoredKept(stored, s) && h in s.origin
    ensures s.origin[h].row !in stored
  {}

  lemma StoredFinishStep(stored: Table, s: State, e: Event)
    requires StoredKept(stored, s) && AttributionOk(s) && Enabled(s, e) && e.FinishTimedOut?
    ensures StoredKept(stored, Next(s, e))
  {
    var id, h := s.pass.task, s.pass.proc.handle;
    FinishedEntry(s);
    ExpireEffect(s, e);
    FinishIs(s, e);
    var r := s.origin[h].row;
    EndsWritten(s.history, e.pick, Stamp(s.now), 0, id in s.tasks && s.tasks[id].kill);
    hide Next, Enabled, AllApart, RecordTimeout, SameOwners;
    RecordingKeeps(s.history, Next(s, e).history, id, e.pick, Stamp(s.now), EndingOf(s, e));
    PickIsOwn(s.history, id, r, e.pick);
    hide OpenNewest, IsNewest, StoredKept;
    StoredOrigin(stored, s, h);
    StoredKeptOn(stored, s, Next(s, e), r);
  }

  lemma StoredLaunchStep(stored: Table, s: State, e: Event)
    requires StoredKept(stored, s) && Enabled(s, e) && LaunchEvent(e)
    ensures StoredKept(stored, Next(s, e))
  {
    match e {
      case BeginLaunch(_, _, _) => BeginEffect(s, e);
      case CreateFails(_) => CreateFailsEffect(s, e);
      case CreateProcess(_, _, _) => CreateEffect(s, e);
      case Track(_) => TrackEffect(s, e);
      case _ => EndLaunchEffect(s, e);
    }
    hide Next, Enabled, Stamp;
  }

  lemma StoredOtherStep(stored: Table, s: State, e: Event)
    requires StoredKept(stored, s) && Enabled(s, e) && !LaunchEvent(e) && !e.Examine? && !e.FinishTimedOut?
    ensures StoredKept(stored, Next(s, e))
  {
    SameLaunches(s, e);
    if e.EditTasks? { OutsideEffect(s, e); } else { OtherKeepsHistory(s, e); }
    hide Next, Enabled;
  }

  lemma {:induction false} StoredRun(g: Rules, stored: Table, s: State, es: seq<Event>)
    requires StoredKept(stored, s) && AttributionOk(s) && g.apart && g.stamps && ObeyingRun(g, s, es)
    ensures StoredKept(stored, After(s, es))
    decreases |es|
  {
    hide AttributionOk, StoredKept, Next, Obeys, Enabled;
    if es != [] {
      var e := es[0];
      ObeysBoth(g, s, e);
      AttributionStep(s, e);
      match e {
        case Examine(_, _) => StoredExamineStep(stored, s, e);
        case FinishTimedOut(_) => StoredFinishStep(stored, s, e);
        case _ => if LaunchEvent(e) { StoredLaunchStep(stored, s, e); } else { StoredOtherStep(stored, s, e); }
      }
      StoredRun(g, stored, Next(s, e), es[1..]);
    }
  }

  /** Under the same rules no row from before the start of the service is ever written: one that a
      stopped service has left Running stays Running until it is deleted. */
  lemma StoredRowsStay(tasks: map<TaskId, Task>, now: int, history: Table, es: seq<Event>, r: RowId)
    requires Stored(tasks, history) && r in history
    requires ObeyingRun(Rules(true, true, false, false), Initial(tasks, now, history), es)
    ensures var s := After(Initial(tasks, now, history), es); r in s.history ==> s.history[r] == history[r]
  {
    InitialOk(tasks, now, history);
    StoredRun(Rules(true, true, false, false), history, Initial(tasks, now, history), es);
  }
}
