/** What the events of a checking pass change, and what they leave alone. */
module Effects {
  import opened Common
  import opened History
  import opened Engine

  predicate PassEvent(e: Event) {
    e.Examine? || e.EraseExited? || e.TakeTimedOut? || e.FinishTimedOut? || e.EndPass?
  }

  predicate SameOwners(t: Table, u: Table) {
    u.Keys == t.Keys && forall r | r in t :: u[r].task == t[r].task && u[r].start == t[r].start
  }

  /** The worker only removes entries, ends processes and changes rows. */
  predicate Untouched(s: State, t: State) {
    && t == s.(running := t.running, live := t.live, closed := t.closed, faulty := t.faulty, history := t.history,
               pass := t.pass)
    && (forall id | id in t.running :: id in s.running && t.running[id] == s.running[id])
    && SameOwners(s.history, t.history)
  }

  lemma UntouchedOn(a: State, b: State, c: State)
    requires Untouched(a, b) && Untouched(b, c)
    ensures Untouched(a, c)
  {}

  /** How far the pass is from its end. */
  function PassLeft(p: Pass): nat {
    match p
    case Examining(_, todo, _, timedOut) => 2 + 3 * |todo| + 2 * |timedOut|
    case Expiring(due) => 1 + 2 * |due|
    case Finishing(_, _, due) => 2 + 2 * |due|
    case _ => 0
  }

  lemma ExamineEffect(s: State, code: int, pick: Option<RowId>)
    requires s.pass.Examining? && s.pass.todo != [] && IsNewest(s.history, s.pass.todo[0].0, pick)
    requires pick.Some? ==> pick.value in s.history
    ensures Enabled(s, Examine(code, pick))
    ensures var t := Next(s, Examine(code, pick));
            && Untouched(s, t) && t.running == s.running && t.live == s.live && PassLeft(t.pass) < PassLeft(s.pass)
            && (forall r | r in t.history && pick != Some(r) :: t.history[r] == s.history[r])
            && var (id, proc) := s.pass.todo[0];
               && t.closed == s.closed + (if id in s.tasks && proc.handle !in s.live then {proc.handle} else {})
               && t.faulty == (s.faulty || (id in s.tasks && proc.handle in s.closed))
    ensures var p, q := s.pass, Next(s, Examine(code, pick)).pass;
            var (id, proc) := p.todo[0];
            && q.Examining? && q.began == p.began && q.todo == p.todo[1..]
            && q.exited == p.exited + (if id in s.tasks && proc.handle !in s.live then [id] else [])
            && q.timedOut == p.timedOut +
                 (if id in s.tasks && proc.handle in s.live && TimedOut(s.tasks[id], p.began, proc) then [id] else [])
  {
    ExamineIs(s, code, pick);
    RecordExitOwners(s.history, pick, Stamp(s.now), code);
    SameOwnersRefl(s.history);
    hide RecordExit, IsNewest, TimedOut, SameOwners, Next, Enabled;
  }

  lemma ExamineIs(s: State, code: int, pick: Option<RowId>)
    requires s.pass.Examining? && s.pass.todo != [] && IsNewest(s.history, s.pass.todo[0].0, pick)
    requires pick.Some? ==> pick.value in s.history
    ensures Enabled(s, Examine(code, pick)) && Next(s, Examine(code, pick)) == ExamineNext(s, code, pick)
  {
    hide RecordExit, IsNewest, TimedOut;
  }

  lemma SameOwnersRefl(t: Table)
    ensures SameOwners(t, t)
  {}

  lemma RecordExitOwners(t: Table, pick: Option<RowId>, now: int, code: int)
    requires pick.Some? ==> pick.value in t
    ensures SameOwners(t, RecordExit(t, pick, now, code))
    ensures forall r | r in t && pick != Some(r) :: RecordExit(t, pick, now, code)[r] == t[r]
  {}

  lemma RecordTimeoutOwners(t: Table, pick: Option<RowId>, now: int, kill: bool)
    requires pick.Some? ==> pick.value in t
    ensures SameOwners(t, RecordTimeout(t, pick, now, kill))
  {}

  lemma EraseEffect(s: State)
    requires s.pass.Examining? && s.pass.todo == []
    ensures Enabled(s, EraseExited)
    ensures var t := Next(s, EraseExited);
            && Untouched(s, t) && t.running == s.running - Elements(s.pass.exited) && t.live == s.live
            && t.pass == Expiring(s.pass.timedOut) && t.closed == s.closed && t.faulty == s.faulty
  {}

  lemma TakeEffect(s: State)
    requires s.pass.Expiring? && s.pass.due != []
    ensures Enabled(s, TakeTimedOut)
    ensures var t, id, rest := Next(s, TakeTimedOut), s.pass.due[0], s.pass.due[1..];
            && Untouched(s, t) && t.running == s.running - {id} && t.live == s.live
            && t.pass == (if id in s.running then Finishing(id, s.running[id], rest) else Expiring(rest))
            && t.closed == s.closed && t.faulty == s.faulty
  {
    assert s.running - {} == s.running;
  }

  lemma FinishEffect(s: State, pick: Option<RowId>)
    requires s.pass.Finishing? && IsNewest(s.history, s.pass.task, pick)
    requires pick.Some? ==> pick.value in s.history
    ensures Enabled(s, FinishTimedOut(pick))
    ensures var t := Next(s, FinishTimedOut(pick));
            && Untouched(s, t) && t.running == s.running && t.pass == Expiring(s.pass.due)
            && t.closed == s.closed + {s.pass.proc.handle} && t.faulty == (s.faulty || s.pass.proc.handle in s.closed)
            && t.live == if s.pass.task in s.tasks && s.tasks[s.pass.task].kill then s.live - {s.pass.proc.handle} else s.live
  {
    RecordTimeoutOwners(s.history, pick, Stamp(s.now), s.pass.task in s.tasks && s.tasks[s.pass.task].kill);
    hide RecordTimeout, IsNewest;
  }

  lemma FinishIs(s: State, e: Event)
    requires Enabled(s, e) && e.FinishTimedOut?
    ensures s.pass.Finishing? && IsNewest(s.history, s.pass.task, e.pick)
    ensures Next(s, e) == FinishTimedOutNext(s, e.pick)
  {
    hide RecordTimeout, IsNewest;
  }

  lemma EndEffect(s: State)
    requires s.pass.Expiring? && s.pass.due == []
    ensures Enabled(s, EndPass) && Next(s, EndPass) == s.(pass := Idle)
  {}

  /** What the second half of a pass does, event by event. */
  lemma ExpireEffect(s: State, e: Event)
    requires Enabled(s, e) && (e.EraseExited? || e.TakeTimedOut? || e.FinishTimedOut? || e.EndPass?)
    ensures Untouched(s, Next(s, e))
    ensures var t := Next(s, e);
            match e
            case EraseExited =>
              && s.pass.Examining? && s.pass.todo == [] && t.pass == Expiring(s.pass.timedOut) && t.live == s.live
              && t.running == s.running - Elements(s.pass.exited) && t.closed == s.closed && t.faulty == s.faulty
            case TakeTimedOut =>
              && s.pass.Expiring? && s.pass.due != [] && t.live == s.live
              && var (id, rest) := (s.pass.due[0], s.pass.due[1..]);
                 && t.running == s.running - {id}
                 && t.pass == (if id in s.running then Finishing(id, s.running[id], rest) else Expiring(rest))
                 && t.closed == s.closed && t.faulty == s.faulty
            case FinishTimedOut(_) =>
              && s.pass.Finishing? && t.pass == Expiring(s.pass.due) && t.running == s.running
              && t.closed == s.closed + {s.pass.proc.handle} && t.faulty == (s.faulty || s.pass.proc.handle in s.closed)
              && t.live == (if s.pass.task in s.tasks && s.tasks[s.pass.task].kill then s.live - {s.pass.proc.handle} else s.live)
            case _ => s.pass == Expiring([]) && t == s.(pass := Idle)
  {
    match e
    case EraseExited => EraseEffect(s);
    case TakeTimedOut => TakeEffect(s);
    case FinishTimedOut(pick) => FinishEffect(s, pick);
    case _ =>
      EndEffect(s);
      SameOwnersRefl(s.history);
  }

  // ---- launches ----

  predicate LaunchEvent(e: Event) {
    e.BeginLaunch? || e.CreateFails? || e.CreateProcess? || e.Track? || e.EndLaunch?
  }

  lemma BeginEffect(s: State, e: Event)
    requires Enabled(s, e) && e.BeginLaunch?
    ensures e.thread !in s.launches && e.id in s.tasks && e.row !in s.usedRows
    ensures Next(s, e) == BeginLaunchNext(s, e.thread, e.id, e.row)
  {}

  lemma CreateFailsEffect(s: State, e: Event)
    requires Enabled(s, e) && e.CreateFails?
    ensures e.thread in s.launches && s.launches[e.thread].Begun?
    ensures Next(s, e) == CreateFailsNext(s, e.thread)
  {}

  lemma CreateEffect(s: State, e: Event)
    requires Enabled(s, e) && e.CreateProcess?
    ensures e.thread in s.launches && s.launches[e.thread].Begun? && e.handle !in s.issued
    ensures Next(s, e) == CreateProcessNext(s, e.thread, e.handle, e.pid)
  {}

  lemma TrackEffect(s: State, e: Event)
    requires Enabled(s, e) && e.Track?
    ensures e.thread in s.launches && s.launches[e.thread].Created?
    ensures Next(s, e) == TrackNext(s, e.thread)
  {}

  lemma EndLaunchEffect(s: State, e: Event)
    requires Enabled(s, e) && e.EndLaunch?
    ensures e.thread in s.launches && (s.launches[e.thread].Tracked? || s.launches[e.thread].Refused?)
    ensures Next(s, e) == EndLaunchNext(s, e.thread)
  {}

  // ---- the rest ----

  lemma SnapshotEffect(s: State, e: Event)
    requires Enabled(s, e) && e.Snapshot?
    ensures s.pass.Starting? && NoDuplicates(e.order) && Elements(e.order) == s.running.Keys
    ensures Next(s, e) == SnapshotNext(s, e.order)
  {}

  predicate OutsideEvent(e: Event) {
    e.BeginPass? || e.ProcessExits? || e.SetClock? || e.EditTasks?
  }

  lemma OutsideEffect(s: State, e: Event)
    requires Enabled(s, e) && OutsideEvent(e)
    ensures match e
            case BeginPass => s.pass.Idle? && Next(s, e) == s.(pass := Starting(s.now))
            case ProcessExits(h) => Next(s, e) == s.(live := s.live - {h})
            case SetClock(time) => Next(s, e) == s.(now := time)
            case EditTasks(edited) => Next(s, e) == EditTasksNext(s, edited)
            case _ => true
  {}

  lemma PassUntouched(s: State, e: Event)
    requires Enabled(s, e) && PassEvent(e)
    ensures Untouched(s, Next(s, e))
  {
    if e.Examine? { ExamineEffect(s, e.code, e.pick); } else { ExpireEffect(s, e); }
  }
}
