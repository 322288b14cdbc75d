/** Which history row belongs to which launch and process, whatever happens. */
module Ownership {
  import opened Common
  import opened History
  import opened Engine
  import opened Effects
  import opened Handles

  predicate RowBelongs(t: Table, r: RowId, id: TaskId) {
    r in t ==> t[r].task == id
  }

  /** Every launch has a row of its own, which belongs to its task; and a launch without a
      process shares its row with none. */
  ghost predicate OwnRows(s: State) {
    && s.history.Keys <= s.usedRows && (forall r | r in s.history :: s.history[r].task in s.tasks)
    && (forall th | th in s.launches :: var l := s.launches[th]; l.row in s.usedRows && RowBelongs(s.history, l.row, l.task))
    && (forall h | h in s.origin :: var o := s.origin[h]; o.row in s.usedRows && RowBelongs(s.history, o.row, o.task))
    && (forall a, b | a in s.launches && b in s.launches && a != b :: s.launches[a].row != s.launches[b].row)
    && (forall th, h | th in s.launches && h in s.origin && (s.launches[th].Begun? || s.launches[th].Refused?) ::
          s.origin[h].row != s.launches[th].row)
  }

  /** Rows never change owner, and new rows have never been used. */
  predicate RowsPersist(s: State, s': State) {
    && s.usedRows <= s'.usedRows
    && forall r | r in s'.history ::
         if r in s.history then s'.history[r].task == s.history[r].task else r !in s.usedRows
  }

  lemma RowsPersistStep(s: State, e: Event)
    requires Enabled(s, e) && s.history.Keys <= s.usedRows
    ensures RowsPersist(s, Next(s, e))
  {
    if LaunchEvent(e) {
      LaunchRowsPersist(s, e);
    } else {
      SameLaunches(s, e);
      hide Next, Enabled;
    }
  }

  lemma LaunchRowsPersist(s: State, e: Event)
    requires Enabled(s, e) && LaunchEvent(e) && s.history.Keys <= s.usedRows
    ensures RowsPersist(s, Next(s, e))
  {
    if e.BeginLaunch? { BeginEffect(s, e); hide Next, Enabled; }
    else if e.EndLaunch? { EndLaunchEffect(s, e); hide Next, Enabled; }
  }

  lemma OwnRowsBegin(s: State, e: Event)
    requires OwnRows(s) && Enabled(s, e) && e.BeginLaunch?
    ensures OwnRows(Next(s, e))
  {
    BeginEffect(s, e);
    hide Next, Enabled, Stamp;
  }

  lemma OwnRowsCreate(s: State, e: Event)
    requires OwnRows(s) && Enabled(s, e) && e.CreateProcess?
    ensures OwnRows(Next(s, e))
  {
    CreateEffect(s, e);
    hide Next, Enabled;
  }

  lemma OwnRowsGoOn(s: State, e: Event)
    requires OwnRows(s) && Enabled(s, e) && (e.CreateFails? || e.Track? || e.EndLaunch?)
    ensures OwnRows(Next(s, e))
  {
    if e.CreateFails? { CreateFailsEffect(s, e); }
    else if e.Track? { TrackEffect(s, e); }
    else { EndLaunchEffect(s, e); }
    hide Next, Enabled;
  }

  lemma OwnRowsOther(s: State, e: Event)
    requires OwnRows(s) && Enabled(s, e) && !LaunchEvent(e)
    ensures OwnRows(Next(s, e))
  {
    RowsPersistStep(s, e);
    SameLaunches(s, e);
    hide Next, Enabled, LaunchEvent;
  }

  lemma SameLaunches(s: State, e: Event)
    requires Enabled(s, e) && !LaunchEvent(e)
    ensures Next(s, e).launches == s.launches && Next(s, e).origin == s.origin && Next(s, e).usedRows == s.usedRows
    ensures forall r | r in Next(s, e).history :: r in s.history && Next(s, e).history[r].task == s.history[r].task
    ensures if e.EditTasks? then forall r | r in Next(s, e).history :: Next(s, e).history[r].task in Next(s, e).tasks
            else Next(s, e).tasks == s.tasks
  {
    if PassEvent(e) {
      PassUntouched(s, e);
      hide Next, Enabled;
    } else if e.Snapshot? {
      SnapshotEffect(s, e);
      hide Next, Enabled;
    } else {
      OutsideEffect(s, e);
      hide Next, Enabled;
    }
  }

  lemma OwnRowsStep(s: State, e: Event)
    requires OwnRows(s) && Enabled(s, e)
    ensures OwnRows(Next(s, e))
  {
    hide OwnRows, Next, Enabled;
    match e
    case BeginLaunch(_, _, _) => OwnRowsBegin(s, e);
    case CreateProcess(_, _, _) => OwnRowsCreate(s, e);
    case _ => if LaunchEvent(e) { OwnRowsGoOn(s, e); } else { OwnRowsOther(s, e); }
  }

  lemma {:induction false} OwnRowsRun(s: State, es: seq<Event>)
    requires OwnRows(s) && Runs(s, es)
    ensures OwnRows(After(s, es))
    decreases |es|
  {
    hide OwnRows, Next, Enabled;
    if es != [] {
      OwnRowsStep(s, es[0]);
      OwnRowsRun(Next(s, es[0]), es[1..]);
    }
  }
}
