/** Process handles under arbitrary interleaving of launches with the checking pass. */
module Handles {
  import opened Common
  import opened History
  import opened Engine
  import opened Effects

  predicate IsTracked(s: State, h: Handle) {
    h in s.origin && s.origin[h].task in s.running && s.running[s.origin[h].task].handle == h
  }

  /** The process was created by a launch that has not tracked it yet. */
  predicate IsInFlight(s: State, h: Handle) {
    h in s.origin && s.origin[h].thread in s.launches
    && s.launches[s.origin[h].thread].Created? && s.launches[s.origin[h].thread].handle == h
  }

  /** Handles in the running map. */
  function TrackedHandles(s: State): set<Handle> {
    set h | h in s.issued && IsTracked(s, h)
  }

  /** The handle taken from the map and about to be closed. */
  function InHand(s: State): set<Handle> {
    if s.pass.Finishing? then {s.pass.proc.handle} else {}
  }

  predicate Open(s: State, h: Handle, id: TaskId) {
    h in s.issued && h !in s.closed && h in s.origin && s.origin[h].task == id
  }

  ghost predicate RunningOk(s: State) {
    forall id | id in s.running :: var h := s.running[id].handle;
      && h in s.issued && h in s.origin && s.origin[h].task == id
      && (h in s.closed ==> s.pass.Examining? && id in s.pass.exited)
  }

  ghost predicate LaunchesOk(s: State) {
    forall th | th in s.launches && s.launches[th].Created? :: var l := s.launches[th];
      && Open(s, l.handle, l.task) && s.origin[l.handle].thread == th
      && !IsTracked(s, l.handle) && l.handle !in InHand(s)
  }

  ghost predicate PassOk(s: State) {
    match s.pass
    case Examining(_, todo, exited, _) =>
      && (forall i | 0 <= i < |todo| ::
            && Open(s, todo[i].1.handle, todo[i].0) && !IsInFlight(s, todo[i].1.handle)
            && todo[i].0 in s.running && todo[i].0 !in exited)
      && (forall i, j | 0 <= i < j < |todo| :: todo[i].0 != todo[j].0)
      && (forall id | id in exited :: id in s.running)
    case Finishing(id, proc, _) => Open(s, proc.handle, id) && !IsTracked(s, proc.handle)
    case _ => true
  }

  /** What every interleaving keeps. */
  ghost predicate HandlesOk(s: State) {
    && s.closed <= s.issued && s.origin.Keys == s.issued && s.live <= s.issued
    && RunningOk(s) && LaunchesOk(s) && PassOk(s) && !s.faulty
  }

  lemma HandlesCreateStep(s: State, e: Event)
    requires HandlesOk(s) && Enabled(s, e) && e.CreateProcess?
    ensures HandlesOk(Next(s, e))
  {
    CreateEffect(s, e);
    hide Next, Enabled;
  }

  lemma HandlesTrackStep(s: State, e: Event)
    requires HandlesOk(s) && Enabled(s, e) && e.Track?
    ensures HandlesOk(Next(s, e))
  {
    TrackEffect(s, e);
    hide Next, Enabled;
  }

  lemma HandlesLaunchStep(s: State, e: Event)
    requires HandlesOk(s) && Enabled(s, e) && (e.BeginLaunch? || e.CreateFails? || e.EndLaunch?)
    ensures HandlesOk(Next(s, e))
  {
    match e {
      case BeginLaunch(_, _, _) => BeginEffect(s, e);
      case CreateFails(_) => CreateFailsEffect(s, e);
      case _ => EndLaunchEffect(s, e);
    }
    hide Next, Enabled, Update, Stamp;
  }

  lemma HandlesSnapshotStep(s: State, e: Event)
    requires HandlesOk(s) && Enabled(s, e) && e.Snapshot?
    ensures HandlesOk(Next(s, e))
  {
    SnapshotEffect(s, e);
    hide Next, Enabled;
  }

  lemma HandlesExamineStep(s: State, e: Event)
    requires HandlesOk(s) && Enabled(s, e) && e.Examine?
    ensures HandlesOk(Next(s, e))
  {
    ExamineEffect(s, e.code, e.pick);
    hide Next, Enabled, TimedOut, SameOwners;
  }

  lemma HandlesExpireStep(s: State, e: Event)
    requires HandlesOk(s) && Enabled(s, e) && PassEvent(e) && !e.Examine?
    ensures HandlesOk(Next(s, e))
  {
    ExpireEffect(s, e);
    hide Next, Enabled, SameOwners;
  }

  lemma HandlesOutsideStep(s: State, e: Event)
    requires HandlesOk(s) && Enabled(s, e) && OutsideEvent(e)
    ensures HandlesOk(Next(s, e))
  {
    OutsideEffect(s, e);
    hide Next, Enabled, CascadeDelete;
  }

  lemma HandlesStep(s: State, e: Event)
    requires HandlesOk(s) && Enabled(s, e)
    ensures HandlesOk(Next(s, e))
  {
    hide HandlesOk, Next, Enabled;
    match e
    case Snapshot(_) => HandlesSnapshotStep(s, e);
    case Examine(_, _) => HandlesExamineStep(s, e);
    case CreateProcess(_, _, _) => HandlesCreateStep(s, e);
    case Track(_) => HandlesTrackStep(s, e);
    case _ =>
      if LaunchEvent(e) { HandlesLaunchStep(s, e); }
      else if PassEvent(e) { HandlesExpireStep(s, e); }
      else { HandlesOutsideStep(s, e); }
  }

  lemma {:induction false} HandlesRun(s: State, es: seq<Event>)
    requires HandlesOk(s) && Runs(s, es)
    ensures HandlesOk(After(s, es))
    decreases |es|
  {
    hide HandlesOk;
    if es != [] {
      HandlesStep(s, es[0]);
      HandlesRun(Next(s, es[0]), es[1..]);
    }
  }

  /** In every run from an empty engine, with launches on any threads interleaved with the
      checking pass at will, no handle is queried or closed after it was closed; and whenever
      no pass is going on, every handle in the running map is open. */
  lemma HandleSafety(tasks: map<TaskId, Task>, now: int, history: Table, es: seq<Event>)
    requires Runs(Initial(tasks, now, history), es)
    ensures var s := After(Initial(tasks, now, history), es);
            !s.faulty && (s.pass.Idle? ==> TrackedHandles(s) <= s.issued - s.closed)
  {
    HandlesRun(Initial(tasks, now, history), es);
  }

  // ---- leaks ----

  predicate IsLost(s: State, h: Handle) {
    h in s.issued && h !in s.closed && !IsTracked(s, h) && !IsInFlight(s, h) && h !in InHand(s)
  }

  /** Open handles that nothing refers to any more. */
  function Lost(s: State): set<Handle> {
    set h | h in s.issued && IsLost(s, h)
  }

  predicate IsDoomed(s: State, id: TaskId) {
    s.pass.Examining? && id in s.running && id in s.pass.exited && s.running[id].handle !in s.closed
  }

  /** Entries that will be erased because an earlier process of the same task has exited,
      although they hold an open handle. */
  function Doomed(s: State): set<TaskId> {
    set id | id in s.running && IsDoomed(s, id)
  }

  ghost predicate LeaksCounted(s: State) {
    |Lost(s)| + |Doomed(s)| == s.overwritten
  }

  /** The ways in which one step can move the two sets. */
  ghost predicate SameSets(s: State, s': State) {
    Lost(s') == Lost(s) && Doomed(s') == Doomed(s)
  }

  ghost predicate Loses(s: State, s': State, h: Handle) {
    h !in Lost(s) && Lost(s') == Lost(s) + {h} && Doomed(s') == Doomed(s)
  }

  ghost predicate Dooms(s: State, s': State, id: TaskId) {
    Lost(s') == Lost(s) && id !in Doomed(s) && Doomed(s') == Doomed(s) + {id}
  }

  lemma TrackMoves(s: State, e: Event)
    requires HandlesOk(s) && Enabled(s, e) && e.Track?
    ensures var id := s.launches[e.thread].task;
            if id !in s.running then SameSets(s, Next(s, e))
            else if s.running[id].handle in s.closed then Dooms(s, Next(s, e), id)
            else Loses(s, Next(s, e), s.running[id].handle)
    ensures Next(s, e).overwritten == s.overwritten + (if s.launches[e.thread].task in s.running then 1 else 0)
  {
    TrackEffect(s, e);
    hide Next, Enabled;
    var s' := Next(s, e);
    var l := s.launches[e.thread];
    forall h | h in s.issued && !(l.task in s.running && h == s.running[l.task].handle)
      ensures IsLost(s', h) <==> IsLost(s, h)
    {}
    forall id | id != l.task ensures IsDoomed(s', id) <==> IsDoomed(s, id) {}
  }

  lemma ExamineMoves(s: State, e: Event)
    requires HandlesOk(s) && Enabled(s, e) && e.Examine?
    ensures var (id, proc) := s.pass.todo[0];
            if id in s.tasks && proc.handle !in s.live && s.running[id].handle != proc.handle
            then proc.handle in Lost(s) && Lost(Next(s, e)) == Lost(s) - {proc.handle}
                 && id !in Doomed(s) && Doomed(Next(s, e)) == Doomed(s) + {id}
            else SameSets(s, Next(s, e))
    ensures Next(s, e).overwritten == s.overwritten
  {
    ExamineEffect(s, e.code, e.pick);
    hide Next, Enabled, TimedOut, SameOwners;
    var s' := Next(s, e);
    var (id, proc) := s.pass.todo[0];
    forall h | h in s.issued && h != proc.handle ensures IsLost(s', h) <==> IsLost(s, h) {}
    forall x | x != id ensures IsDoomed(s', x) <==> IsDoomed(s, x) {}
  }

  lemma EraseMoves(s: State, e: Event)
    requires HandlesOk(s) && Enabled(s, e) && e.EraseExited?
    ensures var doomed := set id | id in Doomed(s) :: s.running[id].handle;
            Lost(Next(s, e)) == Lost(s) + doomed && Lost(s) !! doomed && Doomed(Next(s, e)) == {}
    ensures Next(s, e).overwritten == s.overwritten
  {
    ExpireEffect(s, e);
    hide Next, Enabled, SameOwners;
    var s' := Next(s, e);
    var doomed := set id | id in Doomed(s) :: s.running[id].handle;
    forall h | h in s.issued ensures IsLost(s', h) <==> h in Lost(s) || h in doomed {
      var id := s.origin[h].task;
      if IsTracked(s, h) && id in s.pass.exited && h !in s.closed {
        assert id in Doomed(s);
      }
    }
  }

  lemma LaunchMoves(s: State, e: Event)
    requires HandlesOk(s) && Enabled(s, e) && LaunchEvent(e) && !e.Track?
    ensures SameSets(s, Next(s, e))
    ensures Next(s, e).overwritten == s.overwritten
  {
    match e {
      case BeginLaunch(_, _, _) => BeginEffect(s, e);
      case CreateFails(_) => CreateFailsEffect(s, e);
      case CreateProcess(_, _, _) => CreateEffect(s, e);
      case _ => EndLaunchEffect(s, e);
    }
    hide Next, Enabled, Update, Stamp, PassOk;
    SameMembers(s, Next(s, e));
  }

  lemma ExpireMoves(s: State, e: Event)
    requires HandlesOk(s) && Enabled(s, e) && (e.TakeTimedOut? || e.FinishTimedOut? || e.EndPass?)
    ensures SameSets(s, Next(s, e))
    ensures Next(s, e).overwritten == s.overwritten
  {
    ExpireEffect(s, e);
    hide Next, Enabled, SameOwners;
    SameMembers(s, Next(s, e));
  }

  lemma OtherMoves(s: State, e: Event)
    requires HandlesOk(s) && Enabled(s, e) && (OutsideEvent(e) || e.Snapshot?)
    ensures SameSets(s, Next(s, e))
    ensures Next(s, e).overwritten == s.overwritten
  {
    if e.Snapshot? { SnapshotEffect(s, e); } else { OutsideEffect(s, e); }
    hide Next, Enabled, CascadeDelete;
    SameMembers(s, Next(s, e));
  }

  lemma SameMembers(s: State, t: State)
    requires s.issued <= t.issued && forall h | h in t.issued :: IsLost(t, h) <==> h in s.issued && IsLost(s, h)
    requires forall id :: id in t.running && IsDoomed(t, id) <==> id in s.running && IsDoomed(s, id)
    ensures SameSets(s, t)
  {
    hide IsLost, IsDoomed;
  }

  lemma {:induction false} ImageCount(ids: set<TaskId>, running: map<TaskId, Proc>)
    requires ids <= running.Keys
    requires forall a, b | a in ids && b in ids && a != b :: running[a].handle != running[b].handle
    ensures |set id | id in ids :: running[id].handle| == |ids|
  {
    if ids != {} {
      var x :| x in ids;
      ImageCount(ids - {x}, running);
      assert (set id | id in ids :: running[id].handle)
          == (set id | id in ids - {x} :: running[id].handle) + {running[x].handle};
    }
  }

  lemma DistinctTracked(s: State)
    requires HandlesOk(s)
    ensures Doomed(s) <= s.running.Keys
    ensures forall a, b | a in s.running && b in s.running && a != b :: s.running[a].handle != s.running[b].handle
  {}

  lemma {:induction false} LeaksStep(s: State, e: Event)
    requires HandlesOk(s) && Enabled(s, e) && LeaksCounted(s)
    ensures LeaksCounted(Next(s, e))
  {
    hide HandlesOk, Lost, Doomed, Next;
    match e
    case Track(_) => TrackMoves(s, e);
    case Examine(_, _) => ExamineMoves(s, e);
    case EraseExited =>
      EraseMoves(s, e);
      DistinctTracked(s);
      ImageCount(Doomed(s), s.running);
    case _ =>
      if LaunchEvent(e) { LaunchMoves(s, e); }
      else if PassEvent(e) { ExpireMoves(s, e); }
      else { OtherMoves(s, e); }
  }

  lemma {:induction false} LeaksRun(s: State, es: seq<Event>)
    requires HandlesOk(s) && LeaksCounted(s) && Runs(s, es)
    ensures LeaksCounted(After(s, es))
    decreases |es|
  {
    hide HandlesOk, LeaksCounted, Next;
    if es != [] {
      HandlesStep(s, es[0]);
      LeaksStep(s, es[0]);
      LeaksRun(Next(s, es[0]), es[1..]);
    }
  }

  lemma NothingLost(s: State)
    requires HandlesOk(s) && s.pass.Idle? && s.launches == map[]
    ensures Lost(s) == {} <==> s.issued == s.closed + TrackedHandles(s)
  {
    assert forall h | h in s.issued :: IsLost(s, h) <==> h !in s.closed + TrackedHandles(s);
    if Lost(s) == {} {
      assert forall h | h in s.issued :: h !in Lost(s);
    }
  }

  lemma IdleFacts(s: State)
    requires HandlesOk(s) && s.pass.Idle?
    ensures s.closed !! TrackedHandles(s) && Doomed(s) == {}
  {}

  /** Whenever no pass is going on, the open handles that nothing refers to are exactly as
      many as the entries that launches have overwritten, in every interleaving. With no
      launch in progress, issued handles are therefore the disjoint union of closed and
      tracked ones precisely when nothing was ever overwritten. */
  lemma HandleConservation(tasks: map<TaskId, Task>, now: int, history: Table, es: seq<Event>)
    requires Runs(Initial(tasks, now, history), es)
    requires After(Initial(tasks, now, history), es).pass.Idle?
    ensures var s := After(Initial(tasks, now, history), es);
            && |Lost(s)| == s.overwritten
            && s.closed !! TrackedHandles(s)
            && (s.launches == map[] ==>
                 (s.issued == s.closed + TrackedHandles(s) <==> s.overwritten == 0))
  {
    var s0 := Initial(tasks, now, history);
    assert Lost(s0) == {} && Doomed(s0) == {};
    LeaksRun(s0, es);
    HandlesRun(s0, es);
    var s := After(s0, es);
    hide Lost, TrackedHandles, HandlesOk;
    IdleFacts(s);
    if s.launches == map[] {
      NothingLost(s);
    }
  }
}
