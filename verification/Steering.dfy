/** Ways to carry a run on: from any state the pass can be completed, launches can write their
    rows back, and processes can be started. */
module Steering {
  import opened Common
  import opened History
  import opened Engine
  import opened Effects
  import opened Handles
  import opened Discipline

  /** The rule that asks nothing. */
  const FREE: Rules := Rules(false, false, false, false)

  /** The events lead from `s` to `t` and keep the rules. */
  ghost predicate Leads(g: Rules, s: State, es: seq<Event>, t: State) {
    ObeyingRun(g, s, es) && After(s, es) == t
  }

  lemma LeadsNowhere(g: Rules, s: State)
    ensures Leads(g, s, [], s)
  {}

  lemma LeadsStep(g: Rules, s: State, e: Event, t: State)
    requires Enabled(s, e) && Obeys(g, s, e) && t == Next(s, e)
    ensures Leads(g, s, [e], t)
  {
    hide Enabled, Next, Obeys;
    RunsOne(s, e);
    assert [e][1..] == [];
    LeadsNowhere(g, t);
  }

  lemma LeadsOn(g: Rules, s: State, a: seq<Event>, m: State, b: seq<Event>, t: State)
    requires Leads(g, s, a, m) && Leads(g, m, b, t)
    ensures Leads(g, s, a + b, t)
  {
    hide Enabled, Next, Obeys;
    RunsConcat(s, a, b);
    ObeyingConcat(g, s, a, b);
  }

  lemma LeadsRuns(g: Rules, s: State, es: seq<Event>, t: State)
    requires Leads(g, s, es, t)
    ensures ObeyingRun(g, s, es) && Runs(s, es) && After(s, es) == t
  {}

  // ---- completing a pass ----

  predicate OnlyPass(es: seq<Event>) {
    forall i | 0 <= i < |es| :: PassEvent(es[i])
  }

  lemma EndUntouched(s: State)
    ensures Untouched(s, s.(pass := Idle))
  {}

  /** One more step of a pass that is going on. */
  lemma PassStep(s: State) returns (e: Event, t: State)
    requires !s.pass.Idle? && !s.pass.Starting?
    ensures Enabled(s, e) && PassEvent(e) && t == Next(s, e)
    ensures Untouched(s, t) && PassLeft(t.pass) < PassLeft(s.pass) && !t.pass.Starting?
  {
    hide Next, Enabled, Untouched, TimedOut;
    match s.pass {
    case Examining(_, todo, _, _) =>
      if todo == [] {
        e := EraseExited;
        EraseEffect(s);
      } else {
        var pick := NewestExists(s.history, todo[0].0);
        e := Examine(0, pick);
        ExamineEffect(s, 0, pick);
      }
    case Expiring(due) =>
      if due == [] {
        e := EndPass;
        EndEffect(s);
        EndUntouched(s);
      } else {
        e := TakeTimedOut;
        TakeEffect(s);
      }
    case Finishing(task, _, _) =>
      var pick := NewestExists(s.history, task);
      e := FinishTimedOut(pick);
      FinishEffect(s, pick);
    }
    t := Next(s, e);
  }

  lemma PassEventObeys(g: Rules, s: State, e: Event)
    requires !g.kills && PassEvent(e) && (g.solo ==> s.launches == map[])
    ensures Obeys(g, s, e)
  {}

  /** A pass that is going on can be completed by the worker alone. */
  lemma {:induction false} CompletePass(g: Rules, s: State) returns (es: seq<Event>, t: State)
    requires !g.kills && !g.solo && !s.pass.Starting?
    ensures Leads(g, s, es, t) && OnlyPass(es) && t.pass.Idle? && Untouched(s, t)
    decreases PassLeft(s.pass)
  {
    if s.pass.Idle? {
      LeadsNowhere(g, s);
      return [], s;
    }
    hide Leads, Next, Enabled, Obeys;
    var e, m := PassStep(s);
    PassEventObeys(g, s, e);
    LeadsStep(g, s, e, m);
    var rest;
    rest, t := CompletePass(g, m);
    es := [e] + rest;
    LeadsOn(g, s, [e], m, rest, t);
    UntouchedOn(s, m, t);
  }

  // ---- stopping on the way ----

  /** The entry would be found late by a pass that began at `began`. */
  predicate LateEntry(s: State, began: int, entry: (TaskId, Proc)) {
    entry.0 in s.tasks && entry.1.handle in s.live && TimedOut(s.tasks[entry.0], began, entry.1)
  }

  /** The rest of the snapshot can be examined: what is late is found late, and no entry that is
      not in it is recorded as exited. */
  lemma {:induction false} ExamineRest(g: Rules, s: State) returns (es: seq<Event>, t: State)
    requires !g.kills && !g.solo && s.pass.Examining?
    ensures Leads(g, s, es, t) && OnlyPass(es) && Untouched(s, t) && t.running == s.running && t.live == s.live
    ensures t.pass.Examining? && t.pass.todo == []
    ensures s.pass.timedOut <= t.pass.timedOut
    ensures forall i | 0 <= i < |s.pass.todo| && LateEntry(s, s.pass.began, s.pass.todo[i]) ::
              s.pass.todo[i].0 in t.pass.timedOut
    ensures forall id | id in t.pass.exited && id !in s.pass.exited ::
              exists i :: 0 <= i < |s.pass.todo| && s.pass.todo[i].0 == id && s.pass.todo[i].1.handle !in s.live
    ensures s.pass.exited <= t.pass.exited
    ensures forall i | 0 <= i < |s.pass.todo| && s.pass.todo[i].0 in s.tasks && s.pass.todo[i].1.handle !in s.live ::
              s.pass.todo[i].0 in t.pass.exited
    decreases |s.pass.todo|
  {
    var todo := s.pass.todo;
    if todo == [] {
      LeadsNowhere(g, s);
      return [], s;
    }
    hide Leads, Next, Enabled, Obeys, TimedOut;
    var pick := NewestExists(s.history, todo[0].0);
    var e := Examine(0, pick);
    ExamineEffect(s, 0, pick);
    PassEventObeys(g, s, e);
    var m := Next(s, e);
    LeadsStep(g, s, e, m);
    var rest;
    rest, t := ExamineRest(g, m);
    es := [e] + rest;
    LeadsOn(g, s, [e], m, rest, t);
    UntouchedOn(s, m, t);
    forall i | 0 <= i < |todo| && LateEntry(s, s.pass.began, todo[i]) ensures todo[i].0 in t.pass.timedOut {
      if i > 0 {
        assert m.pass.todo[i - 1] == todo[i] && LateEntry(m, m.pass.began, m.pass.todo[i - 1]);
      } else {
        var j := |s.pass.timedOut|;
        assert m.pass.timedOut[j] == todo[0].0 == t.pass.timedOut[j];
      }
    }
    forall i | 0 <= i < |todo| && todo[i].0 in s.tasks && todo[i].1.handle !in s.live ensures todo[i].0 in t.pass.exited {
      if i > 0 {
        assert m.pass.todo[i - 1] == todo[i];
      } else {
        var j := |s.pass.exited|;
        assert m.pass.exited[j] == todo[0].0 == t.pass.exited[j];
      }
    }
    forall id | id in t.pass.exited && id !in s.pass.exited
      ensures exists i :: 0 <= i < |todo| && todo[i].0 == id && todo[i].1.handle !in s.live
    {
      if id !in m.pass.exited {
        var j :| 0 <= j < |m.pass.todo| && m.pass.todo[j].0 == id && m.pass.todo[j].1.handle !in m.live;
        assert todo[j + 1] == m.pass.todo[j];
      } else {
        assert todo[0].0 == id;
      }
    }
  }

  /** The snapshot can be examined up to the entry of a task. */
  lemma {:induction false} ExamineUpTo(g: Rules, s: State, id: TaskId) returns (es: seq<Event>, t: State)
    requires !g.kills && !g.solo && s.pass.Examining? && Mentions(s.pass.todo, id)
    ensures Leads(g, s, es, t) && OnlyPass(es) && Untouched(s, t) && t.running == s.running && t.live == s.live
    ensures t.pass.Examining? && t.pass.todo != [] && t.pass.todo[0].0 == id && t.pass.todo[0] in s.pass.todo
    decreases |s.pass.todo|
  {
    var todo := s.pass.todo;
    if todo[0].0 == id {
      LeadsNowhere(g, s);
      SameOwnersRefl(s.history);
      return [], s;
    }
    hide Leads, Next, Enabled, Obeys, TimedOut;
    var pick := NewestExists(s.history, todo[0].0);
    var e := Examine(0, pick);
    ExamineEffect(s, 0, pick);
    PassEventObeys(g, s, e);
    var m := Next(s, e);
    LeadsStep(g, s, e, m);
    var j :| 0 <= j < |todo| && todo[j].0 == id;
    assert m.pass.todo[j - 1] == todo[j];
    var rest;
    rest, t := ExamineUpTo(g, m, id);
    es := [e] + rest;
    LeadsOn(g, s, [e], m, rest, t);
    UntouchedOn(s, m, t);
  }

  /** A pass that has a task among its late ones can be brought to the point where it has taken
      the entry of that task. */
  lemma {:induction false} ExpireTo(g: Rules, s: State, id: TaskId) returns (es: seq<Event>, t: State)
    requires !g.kills && !g.solo && id in s.running && id in LateIds(s.pass)
    requires s.pass.Expiring? || (s.pass.Finishing? && id in s.pass.due)
    ensures Leads(g, s, es, t) && OnlyPass(es) && Untouched(s, t)
    ensures t.pass.Finishing? && t.pass.task == id && t.pass.proc == s.running[id]
    decreases PassLeft(s.pass)
  {
    hide Leads, Next, Enabled, Obeys;
    var e, m;
    if s.pass.Finishing? {
      var pick := NewestExists(s.history, s.pass.task);
      e := FinishTimedOut(pick);
      FinishEffect(s, pick);
      m := Next(s, e);
    } else {
      e := TakeTimedOut;
      TakeEffect(s);
      m := Next(s, e);
    }
    PassEventObeys(g, s, e);
    LeadsStep(g, s, e, m);
    if s.pass.Expiring? && s.pass.due[0] == id { return [e], m; }
    var rest;
    rest, t := ExpireTo(g, m, id);
    es := [e] + rest;
    LeadsOn(g, s, [e], m, rest, t);
    UntouchedOn(s, m, t);
  }

  /** The tasks whose entries the pass is going to take. */
  function DueIds(p: Pass): seq<TaskId> {
    match p
    case Examining(_, _, _, timedOut) => timedOut
    case Expiring(due) => due
    case Finishing(_, _, due) => due
    case _ => []
  }

  predicate LateInSnapshot(s: State, id: TaskId) {
    s.pass.Examining? &&
    exists i | 0 <= i < |s.pass.todo| :: s.pass.todo[i].0 == id && LateEntry(s, s.pass.began, s.pass.todo[i])
  }

  /** No task is in two places of a pass. */
  ghost predicate Sorted(s: State) {
    s.pass.Examining? ==>
      && (forall id | id in s.pass.timedOut :: id !in s.pass.exited && !Mentions(s.pass.todo, id))
      && (forall i | 0 <= i < |s.pass.todo| :: s.pass.todo[i].0 !in s.pass.exited)
      && (forall i, j | 0 <= i < j < |s.pass.todo| :: s.pass.todo[i].0 != s.pass.todo[j].0)
  }

  /** From the examination on, a task that is late and tracked can be taken. */
  lemma TakeLate(g: Rules, s: State, id: TaskId) returns (es: seq<Event>, t: State)
    requires !g.kills && !g.solo && Sorted(s) && (id in DueIds(s.pass) || LateInSnapshot(s, id)) && id in s.running
    ensures Leads(g, s, es, t) && OnlyPass(es)
    ensures Untouched(s, t) && t.pass.Finishing? && t.pass.task == id && t.pass.proc == s.running[id]
  {
    hide Leads, Next, Enabled, Obeys, TimedOut;
    if s.pass.Examining? {
      var a, m := ExamineRest(g, s);
      assert id in m.pass.timedOut && id !in m.pass.exited;
      EraseEffect(m);
      var n := Next(m, EraseExited);
      PassEventObeys(g, m, EraseExited);
      LeadsStep(g, m, EraseExited, n);
      var b;
      b, t := ExpireTo(g, n, id);
      LeadsOn(g, m, [EraseExited], n, b, t);
      es := a + ([EraseExited] + b);
      LeadsOn(g, s, a, m, [EraseExited] + b, t);
      UntouchedOn(s, m, n);
      UntouchedOn(s, n, t);
    } else {
      es, t := ExpireTo(g, s, id);
    }
  }

  lemma OnlyPassIsNoEdit(es: seq<Event>)
    requires OnlyPass(es)
    ensures NoEdits(es)
  {}

  // ---- launches ----

  /** The launch goes from its row to a tracked process. */
  lemma StartProcess(g: Rules, s: State, th: Thread) returns (h: Handle, es: seq<Event>, t: State)
    requires !g.kills && th in s.launches && s.launches[th].Begun? && (g.solo ==> s.pass.Idle?)
    ensures Leads(g, s, es, t) && NoEdits(es) && h !in s.issued
    ensures var l := s.launches[th];
            t == s.(issued := s.issued + {h}, live := s.live + {h}, origin := s.origin[h := Origin(l.task, l.row, th)],
                    running := s.running[l.task := Proc(h, s.now)], launches := s.launches[th := Tracked(l.task, l.row, 100)],
                    overwritten := if l.task in s.running then s.overwritten + 1 else s.overwritten)
  {
    h := FreshNumber(s.issued);
    var a, b := CreateProcess(th, h, 100), Track(th);
    var m := Next(s, a);
    t := Next(m, b);
    es := [a] + [b];
    assert t.launches == s.launches[th := Tracked(s.launches[th].task, s.launches[th].row, 100)];
    LeadsStep(g, s, a, m);
    LeadsStep(g, m, b, t);
    hide Leads, Next, Enabled, Obeys;
    LeadsOn(g, s, [a], m, [b], t);
  }

  function TrackedThreads(s: State): set<Thread> {
    set th | th in s.launches && s.launches[th].Tracked?
  }

  /** Launches have written rows back, and nothing else has happened. */
  predicate WroteBack(s: State, t: State) {
    && t == s.(launches := t.launches, history := t.history)
    && (forall th | th in t.launches :: th in s.launches && t.launches[th] == s.launches[th])
    && (forall th | th in s.launches && !s.launches[th].Tracked? :: th in t.launches)
    && SameOwners(s.history, t.history)
  }

  lemma UpdateOwners(t: Table, r: RowId, row: Row)
    ensures SameOwners(t, Update(t, r, row))
  {}

  /** Every launch that has tracked its process can write its row back. */
  lemma {:induction false} WriteAllBack(g: Rules, s: State) returns (es: seq<Event>, t: State)
    requires !g.kills && !g.solo
    ensures Leads(g, s, es, t) && NoEdits(es) && WroteBack(s, t) && TrackedThreads(t) == {}
    decreases |TrackedThreads(s)|
  {
    if TrackedThreads(s) == {} {
      LeadsNowhere(g, s);
      SameOwnersRefl(s.history);
      return [], s;
    }
    var th :| th in TrackedThreads(s);
    var e, m := EndLaunch(th), Next(s, EndLaunch(th));
    WriteBackEffect(s, th);
    LeadsStep(g, s, e, m);
    hide Leads, Next, Enabled, Obeys, TrackedThreads;
    var rest;
    rest, t := WriteAllBack(g, m);
    es := [e] + rest;
    LeadsOn(g, s, [e], m, rest, t);
  }

  lemma WriteBackEffect(s: State, th: Thread)
    requires th in TrackedThreads(s)
    ensures Enabled(s, EndLaunch(th)) && WroteBack(s, Next(s, EndLaunch(th)))
    ensures Next(s, EndLaunch(th)).launches == s.launches - {th}
    ensures TrackedThreads(Next(s, EndLaunch(th))) == TrackedThreads(s) - {th}
    ensures |TrackedThreads(Next(s, EndLaunch(th)))| < |TrackedThreads(s)|
  {
    var l := s.launches[th];
    UpdateOwners(s.history, l.row, Row(l.task, 0, None, None, l.pid, Running, NoMessage));
    hide Update;
  }

  lemma SameOwnersOn(a: Table, b: Table, c: Table)
    requires SameOwners(a, b) && SameOwners(b, c)
    ensures SameOwners(a, c)
  {}

  /** Everything the worker and the launches still have to write is written, and no pass is
      going on. Launches without a process stay where they are. */
  predicate Quieted(s: State, t: State) {
    && t == s.(running := t.running, live := t.live, closed := t.closed, faulty := t.faulty, history := t.history,
               pass := t.pass, launches := t.launches)
    && t.pass.Idle? && TrackedThreads(t) == {}
    && (forall id | id in t.running :: id in s.running && t.running[id] == s.running[id])
    && (forall th | th in t.launches :: th in s.launches && t.launches[th] == s.launches[th])
    && (forall th | th in s.launches && !s.launches[th].Tracked? :: th in t.launches)
    && SameOwners(s.history, t.history)
  }

  lemma TakeSnapshot(g: Rules, s: State, order: seq<TaskId>) returns (t: State)
    requires !g.kills && s.pass.Starting? && TrackedThreads(s) == {} && (g.solo ==> s.launches == map[])
    requires NoDuplicates(order) && Elements(order) == s.running.Keys
    ensures Leads(g, s, [Snapshot(order)], t) && t == SnapshotNext(s, order)
  {
    var e := Snapshot(order);
    t := SnapshotNext(s, order);
    assert forall th | th in s.launches :: s.launches[th].Tracked? ==> th in TrackedThreads(s);
    LeadsStep(g, s, e, t);
  }

  lemma Quiet(g: Rules, s: State) returns (es: seq<Event>, t: State)
    requires !g.kills && !g.solo
    ensures Leads(g, s, es, t) && NoEdits(es) && Quieted(s, t)
  {
    hide Leads, Next, Enabled, Obeys, TrackedThreads, SameOwners;
    var a, m := WriteAllBack(g, s);
    var n := m;
    es := a;
    if m.pass.Starting? {
      var order := Listed(m.running.Keys);
      n := TakeSnapshot(g, m, order);
      SnapshotKeeps(m, order);
      LeadsOn(g, s, a, m, [Snapshot(order)], n);
      es := a + [Snapshot(order)];
    }
    var b;
    b, t := CompletePass(g, n);
    OnlyPassIsNoEdit(b);
    LeadsOn(g, s, es, n, b, t);
    es := es + b;
    SameOwnersOn(s.history, m.history, t.history);
    SameTracked(n, t);
    SameTracked(m, n);
  }

  lemma SnapshotKeeps(s: State, order: seq<TaskId>)
    requires s.pass.Starting? && Elements(order) == s.running.Keys
    ensures SnapshotNext(s, order) == s.(pass := SnapshotNext(s, order).pass) && SnapshotNext(s, order).pass.Examining?
  {}

  lemma SameTracked(s: State, t: State)
    requires t.launches == s.launches
    ensures TrackedThreads(t) == TrackedThreads(s)
  {}

  lemma {:induction false} Listed(s: set<TaskId>) returns (order: seq<TaskId>)
    ensures NoDuplicates(order) && Elements(order) == s
    decreases s
  {
    if s == {} { return []; }
    var x :| x in s;
    var rest := Listed(s - {x});
    order := [x] + rest;
    assert x !in Elements(rest);
    assert s == {x} + (s - {x});
    assert Elements(order) == {x} + Elements(rest);
  }
}
