/** The rules under which rows are attributed and no handle is lost are exact: the first event
    that breaks them can be followed by a loss. */
module Exactness {
  import opened Common
  import opened History
  import opened Engine
  import opened Effects
  import opened Handles
  import opened Ownership
  import opened Discipline
  import opened Attribution
  import opened Steering

  const RULES: Rules := Rules(true, true, false, false)

  /** The event records an end elsewhere than in the row of the launch of the process, rewrites a
      row that has an end, or overwrites an entry that is still tracked. */
  ghost predicate Broken(s: State, e: Event)
    requires Enabled(s, e)
  {
    !GoodStep(s, e, Next(s, e)) || Next(s, e).overwritten > s.overwritten
  }

  ghost predicate Breaks(s: State, es: seq<Event>)
    requires Runs(s, es)
    decreases |es|
  {
    es != [] && (Broken(s, es[0]) || Breaks(Next(s, es[0]), es[1..]))
  }

  /** Something can still be broken although every rule is kept from here on. */
  ghost predicate CanBreak(s: State) {
    exists es :: ObeyingRun(RULES, s, es) && Breaks(s, es)
  }

  lemma BreaksNow(s: State, e: Event)
    requires Enabled(s, e) && Obeys(RULES, s, e) && Broken(s, e)
    ensures CanBreak(s)
  {
    hide Enabled, Next, Obeys, Broken;
    LeadsStep(RULES, s, e, Next(s, e));
    LeadsRuns(RULES, s, [e], Next(s, e));
    assert Breaks(s, [e]);
  }

  lemma {:induction false} BreaksLater(s: State, a: seq<Event>, m: State)
    requires Leads(RULES, s, a, m) && CanBreak(m)
    ensures CanBreak(s)
    decreases |a|
  {
    hide Enabled, Next, Obeys, Broken;
    if a != [] {
      BreaksLater(Next(s, a[0]), a[1..], m);
      var b :| ObeyingRun(RULES, Next(s, a[0]), b) && Breaks(Next(s, a[0]), b);
      var es := [a[0]] + b;
      assert es[1..] == b;
      assert ObeyingRun(RULES, s, es) && Breaks(s, es);
    }
  }

  // ---- nothing breaks as long as the rules are kept ----

  lemma ObeysMeans(s: State, e: Event)
    ensures Obeys(RULES, s, e) <==> Apart(s, e) && FreshStamp(s, e)
  {}

  lemma NotBroken(s: State, e: Event)
    requires AttributionOk(s) && Enabled(s, e) && Obeys(RULES, s, e)
    ensures !Broken(s, e) && AttributionOk(Next(s, e))
  {
    hide Next, Enabled, GoodStep, AllApart, RowsOk, Obeys;
    ObeysMeans(s, e);
    AttributionStep(s, e);
    OneMoreKept(s, e);
  }

  lemma {:induction false} NeverBreaks(s: State, es: seq<Event>)
    requires AttributionOk(s) && ObeyingRun(RULES, s, es)
    ensures !Breaks(s, es)
    decreases |es|
  {
    hide Next, Enabled, Obeys, AttributionOk, Broken;
    if es != [] {
      NotBroken(s, es[0]);
      NeverBreaks(Next(s, es[0]), es[1..]);
    }
  }

  // ---- every other event can lead to a loss ----

  /** A launch is in progress for a task that is tracked already. */
  lemma OverwriteFollows(s: State, th: Thread)
    requires th in s.launches && s.launches[th].Begun? && s.launches[th].task in s.running
    ensures CanBreak(s)
  {
    var h := FreshNumber(s.issued);
    var a, b := CreateProcess(th, h, 100), Track(th);
    var m := Next(s, a);
    LeadsStep(RULES, s, a, m);
    assert Broken(m, b);
    hide Enabled, Next, Obeys, Broken, Leads, CanBreak;
    BreaksNow(m, b);
    BreaksLater(s, [a], m);
  }

  /** A launch has begun for a task that another launch is about to track. */
  lemma RivalsFollow(s: State, th: Thread, rival: Thread)
    requires th in s.launches && s.launches[th].Begun? && rival in s.launches && rival != th
    requires (s.launches[rival].Begun? || s.launches[rival].Created?) && s.launches[rival].task == s.launches[th].task
    ensures CanBreak(s)
  {
    hide Obeys, CanBreak, Leads;
    if s.launches[rival].Begun? {
      hide Enabled, Next;
      var h, es, t := StartProcess(RULES, s, rival);
      OverwriteFollows(t, th);
      BreaksLater(s, es, t);
    } else {
      var t := Next(s, Track(rival));
      TrackObeys(s, rival);
      hide Enabled, Next;
      OverwriteFollows(t, th);
      BreaksLater(s, [Track(rival)], t);
    }
  }

  lemma TrackObeys(s: State, th: Thread)
    requires th in s.launches && s.launches[th].Created?
    ensures Leads(RULES, s, [Track(th)], Next(s, Track(th)))
    ensures var l := s.launches[th]; var t := Next(s, Track(th));
            l.task in t.running && t.launches == s.launches[th := Tracked(l.task, l.row, l.pid)]
  {
    LeadsStep(RULES, s, Track(th), Next(s, Track(th)));
  }

  /** The pass has taken the entry of a task for which a newer row has just been inserted. */
  lemma MisattributionFollows(s: State, row: RowId)
    requires s.pass.Finishing? && IsNewest(s.history, s.pass.task, Some(row)) && row in s.history
    requires s.pass.proc.handle in s.origin && s.origin[s.pass.proc.handle].row != row
    ensures CanBreak(s)
  {
    var e := FinishTimedOut(Some(row));
    assert !RecordsEnd(s, e, Next(s, e));
    BreaksNow(s, e);
  }

  /** Rows keep their owners and stamps, so what was newest stays newest. */
  lemma NewestKept(t: Table, u: Table, id: TaskId, pick: Option<RowId>)
    requires SameOwners(t, u) && IsNewest(t, id, pick)
    ensures IsNewest(u, id, pick)
  {
    assert RowsOf(u, id) == RowsOf(t, id);
  }

  /** Some other row is at least as new as the row that has just been inserted. */
  ghost predicate Eclipsed(t: Table, id: TaskId, row: RowId) {
    exists r :: r != row && r in RowsOf(t, id) && row in RowsOf(t, id) && t[row].start <= t[r].start
  }

  lemma EclipsedNewest(t: Table, id: TaskId, row: RowId) returns (r: RowId)
    requires Eclipsed(t, id, row)
    ensures r != row && IsNewest(t, id, Some(r))
  {
    var q :| q != row && q in RowsOf(t, id) && t[row].start <= t[q].start;
    assert q in RowsOf(t, id) - {row};
    r := LatestExists(t, RowsOf(t, id) - {row});
  }

  lemma EclipsedKept(t: Table, u: Table, id: TaskId, row: RowId)
    requires SameOwners(t, u) && Eclipsed(t, id, row)
    ensures Eclipsed(u, id, row)
  {
    var r :| r != row && r in RowsOf(t, id) && row in RowsOf(t, id) && t[row].start <= t[r].start;
    assert r in RowsOf(u, id) && row in RowsOf(u, id);
  }

  /** The process of a launch whose row is eclipsed is tracked, and nothing else goes on. Once it
      has exited, the pass records that in another row. */
  lemma WrongRowFollows(s: State, id: TaskId, row: RowId)
    requires s.pass.Idle? && TrackedThreads(s) == {} && id in s.tasks && id in s.running
    requires var h := s.running[id].handle; h in s.live && h in s.origin && s.origin[h].row == row
    requires Eclipsed(s.history, id, row)
    ensures CanBreak(s)
  {
    hide Enabled, Next, Obeys, Leads, CanBreak, Eclipsed, SameOwners, Broken, TrackedThreads;
    var h := s.running[id].handle;
    var s1 := s.(live := s.live - {h});
    var s2 := s1.(pass := Starting(s.now));
    ExitLeads(s, h);
    BeginLeads(s1);
    SameTracked(s, s2);
    var rest := Listed(s.running.Keys - {id});
    var order := [id] + rest;
    FirstOf(s.running.Keys, id, rest);
    var s3 := TakeSnapshot(RULES, s2, order);
    SnapshotKeeps(s2, order);
    assert s3.pass.todo[0] == (id, s.running[id]);
    var r := EclipsedNewest(s.history, id, row);
    ExitInWrongRow(s3, row, r);
    BreaksLater(s2, [Snapshot(order)], s3);
    BreaksLater(s1, [BeginPass], s2);
    BreaksLater(s, [ProcessExits(h)], s1);
  }

  lemma FirstOf(all: set<TaskId>, id: TaskId, rest: seq<TaskId>)
    requires id in all && NoDuplicates(rest) && Elements(rest) == all - {id}
    ensures NoDuplicates([id] + rest) && Elements([id] + rest) == all
  {
    assert id !in Elements(rest);
    assert all == {id} + (all - {id});
    assert Elements([id] + rest) == {id} + Elements(rest);
  }

  lemma ExitLeads(s: State, h: Handle)
    requires h in s.live
    ensures Leads(RULES, s, [ProcessExits(h)], s.(live := s.live - {h}))
  {
    LeadsStep(RULES, s, ProcessExits(h), s.(live := s.live - {h}));
  }

  lemma BeginLeads(s: State)
    requires s.pass.Idle?
    ensures Leads(RULES, s, [BeginPass], s.(pass := Starting(s.now)))
  {
    LeadsStep(RULES, s, BeginPass, s.(pass := Starting(s.now)));
  }

  lemma ExitInWrongRow(s: State, row: RowId, r: RowId)
    requires s.pass.Examining? && s.pass.todo != []
    requires var (id, proc) := s.pass.todo[0];
             && id in s.tasks && proc.handle !in s.live && proc.handle in s.origin && s.origin[proc.handle].row == row
             && IsNewest(s.history, id, Some(r))
    requires r != row
    ensures CanBreak(s)
  {
    var e := Examine(0, Some(r));
    assert !RecordsEnd(s, e, Next(s, e));
    BreaksNow(s, e);
  }

  /** A launch has begun with a stamp that is not newer than every other of its task. */
  lemma StaleFollows(s: State, th: Thread)
    requires th in s.launches && s.launches[th].Begun?
    requires var l := s.launches[th]; l.task in s.tasks && l.task !in s.running && Eclipsed(s.history, l.task, l.row)
    ensures CanBreak(s)
  {
    hide Enabled, Next, Obeys, Leads, CanBreak, Eclipsed, SameOwners, TrackedThreads;
    var (id, row) := (s.launches[th].task, s.launches[th].row);
    var a, q := Quiet(RULES, s);
    EclipsedKept(s.history, q.history, id, row);
    var h, b, p := StartProcess(RULES, q, th);
    OnlyTracked(q, p, th);
    WriteBackEffect(p, th);
    var c, w := EndLaunch(th), Next(p, EndLaunch(th));
    EndLeads(p, th);
    EclipsedKept(p.history, w.history, id, row);
    WrongRowFollows(w, id, row);
    BreaksLater(p, [c], w);
    BreaksLater(q, b, p);
    BreaksLater(s, a, q);
  }

  lemma OnlyTracked(s: State, t: State, th: Thread)
    requires TrackedThreads(s) == {} && th in t.launches && t.launches[th].Tracked?
    requires t.launches == s.launches[th := t.launches[th]]
    ensures TrackedThreads(t) == {th}
  {
    assert forall x | x in s.launches :: x !in TrackedThreads(s);
  }

  lemma EndLeads(s: State, th: Thread)
    requires th in TrackedThreads(s)
    ensures Leads(RULES, s, [EndLaunch(th)], Next(s, EndLaunch(th)))
  {
    LeadsStep(RULES, s, EndLaunch(th), Next(s, EndLaunch(th)));
  }

  /** A snapshot holds a task whose launch has tracked the process and still has to write the
      row back: if the process exits, the row is completed, and then opened again. */
  lemma ReopeningFollows(s: State, th: Thread)
    requires s.pass.Examining? && th in TrackedThreads(s)
    requires var l := s.launches[th];
             && Mentions(s.pass.todo, l.task) && l.task in s.tasks && IsNewest(s.history, l.task, Some(l.row))
             && l.row in s.history
    requires forall i | 0 <= i < |s.pass.todo| ::
               s.pass.todo[i].0 in s.running && s.running[s.pass.todo[i].0] == s.pass.todo[i].1
    ensures CanBreak(s)
  {
    hide Enabled, Next, Obeys, Leads, CanBreak, SameOwners, Broken;
    var (id, row) := (s.launches[th].task, s.launches[th].row);
    var h := s.running[id].handle;
    var s1 := s.(live := s.live - {h});
    var a, t := ExamineUpTo(RULES, s1, id);
    NewestKept(s.history, t.history, id, Some(row));
    CompleteThenReopen(t, th);
    BreaksLater(s1, a, t);
    if h in s.live {
      ExitLeads(s, h);
      BreaksLater(s, [ProcessExits(h)], s1);
    } else {
      assert s1 == s;
    }
  }

  lemma CompleteThenReopen(s: State, th: Thread)
    requires s.pass.Examining? && s.pass.todo != [] && th in TrackedThreads(s)
    requires var (id, proc) := s.pass.todo[0]; var l := s.launches[th];
             && l.task == id && id in s.tasks && proc.handle !in s.live
             && IsNewest(s.history, id, Some(l.row)) && l.row in s.history
    ensures CanBreak(s)
  {
    var row := s.launches[th].row;
    var e := Examine(0, Some(row));
    var t := Next(s, e);
    LeadsStep(RULES, s, e, t);
    assert t.history[row].end.Some?;
    ReopensRow(t, th);
    hide Enabled, Next, Obeys, Leads, CanBreak;
    BreaksLater(s, [e], t);
  }

  lemma ReopensRow(s: State, th: Thread)
    requires th in TrackedThreads(s)
    requires var row := s.launches[th].row; row in s.history && s.history[row].end.Some?
    ensures CanBreak(s)
  {
    var e := EndLaunch(th);
    var row := s.launches[th].row;
    assert Next(s, e).history[row].end.None? && !EndedKept(s, Next(s, e));
    BreaksNow(s, e);
  }

  // ---- the theorem ----

  lemma BeginBreaks(s: State, e: Event)
    requires AttributionOk(s) && Enabled(s, e) && e.BeginLaunch? && !Obeys(RULES, s, e)
    ensures CanBreak(Next(s, e))
  {
    var m := BeginLaunchNext(s, e.thread, e.id, e.row);
    assert m == Next(s, e);
    assert m.launches[e.thread] == Begun(e.id, e.row);
    hide Next, CanBreak;
    if e.id in s.running {
      OverwriteFollows(m, e.thread);
    } else if InProgress(s, e.id) {
      var rival :| rival in s.launches && s.launches[rival].task == e.id && Engaged(s, rival);
      assert m.launches[rival] == s.launches[rival];
      RivalsFollow(m, e.thread, rival);
    } else if !FreshStamp(s, e) {
      var r :| r in RowsOf(s.history, e.id) && s.history[r].start >= Stamp(s.now);
      assert r in s.usedRows && r in RowsOf(m.history, e.id) && e.row in RowsOf(m.history, e.id);
      assert Eclipsed(m.history, e.id, e.row);
      StaleFollows(m, e.thread);
    } else {
      assert s.pass.Finishing? && s.pass.task == e.id;
      assert IsNewest(m.history, e.id, Some(e.row));
      MisattributionFollows(m, e.row);
    }
  }

  lemma SnapshotBreaks(s: State, e: Event)
    requires AttributionOk(s) && Enabled(s, e) && e.Snapshot? && !Obeys(RULES, s, e)
    ensures CanBreak(Next(s, e))
  {
    var m := SnapshotNext(s, e.order);
    assert m == Next(s, e);
    var th :| th in s.launches && s.launches[th].Tracked? && Engaged(s, th) && s.launches[th].task in s.running;
    var l := s.launches[th];
    assert OpenNewest(s.history, l.task, l.row) && RowBelongs(s.history, l.row, l.task);
    assert l.row in RowsOf(s.history, l.task);
    KnownRows(s, l.row);
    assert l.task in Elements(e.order);
    var i :| 0 <= i < |e.order| && e.order[i] == l.task;
    assert m.pass.todo[i].0 == l.task;
    assert forall j | 0 <= j < |e.order| :: e.order[j] in Elements(e.order);
    hide Next, CanBreak;
    ReopeningFollows(m, th);
  }

  lemma KnownRows(s: State, r: RowId)
    requires AttributionOk(s) && r in s.history
    ensures s.history[r].task in s.tasks
  {}

  /** In every state that a run under the rules can reach, an event keeps the rules precisely if
      it breaks nothing and nothing can be broken later by events that all keep them. No rule can
      be dropped or weakened, then, without losing a row, an end time or a handle. */
  lemma RulesAreExact(s: State, e: Event)
    requires AttributionOk(s) && Enabled(s, e)
    ensures Apart(s, e) && FreshStamp(s, e) <==> !Broken(s, e) && !CanBreak(Next(s, e))
  {
    hide Next, Enabled, AttributionOk, Broken, Apart, FreshStamp, Obeys;
    ObeysMeans(s, e);
    if Obeys(RULES, s, e) {
      NotBroken(s, e);
      forall es | ObeyingRun(RULES, Next(s, e), es) ensures !Breaks(Next(s, e), es) {
        NeverBreaks(Next(s, e), es);
      }
    } else if e.BeginLaunch? {
      BeginBreaks(s, e);
    } else {
      OnlyTwoRules(s, e);
      SnapshotBreaks(s, e);
    }
  }

  lemma OnlyTwoRules(s: State, e: Event)
    requires !Obeys(RULES, s, e) && !e.BeginLaunch?
    ensures e.Snapshot?
  {}

  /** The same said of runs: an event after any run under the rules, with launches on any threads
      and edits at any time. */
  lemma FirstViolation(tasks: map<TaskId, Task>, now: int, history: Table, a: seq<Event>, e: Event)
    requires Stored(tasks, history)
    requires ObeyingRun(RULES, Initial(tasks, now, history), a) && Enabled(After(Initial(tasks, now, history), a), e)
    ensures var s := After(Initial(tasks, now, history), a);
            Apart(s, e) && FreshStamp(s, e) <==> !Broken(s, e) && !CanBreak(Next(s, e))
  {
    hide Next, Enabled, AttributionOk, Obeys, Broken, CanBreak, Apart, FreshStamp;
    InitialOk(tasks, now, history);
    AttributionRun(RULES, Initial(tasks, now, history), a);
    RulesAreExact(After(Initial(tasks, now, history), a), e);
  }
}
