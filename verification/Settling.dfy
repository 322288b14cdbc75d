/** What one undisturbed checking pass comes to: which entries it ends, and what that writes. */
module Settling {
  import opened Common
  import opened History
  import opened Engine
  import opened Handles

  /** What the pass finds out about the entry of a task. Entries of tasks that have been deleted
      are passed over. */
  function Ends(s: State, codes: Handle -> int, id: TaskId): Option<Ending> {
    if id !in s.running || id !in s.tasks then None
    else if s.running[id].handle !in s.live then Some(Exited(codes(s.running[id].handle)))
    else if TimedOut(s.tasks[id], s.now, s.running[id]) then Some(Expired(s.tasks[id].kill))
    else None
  }

  function Ended(s: State, codes: Handle -> int): set<TaskId> {
    set id | id in s.running && Ends(s, codes, id).Some?
  }

  ghost predicate RowsKept(t: Table, u: Table, id: TaskId) {
    RowsOf(u, id) == RowsOf(t, id) && forall r | r in RowsOf(t, id) :: u[r] == t[r]
  }

  /** `v` is `t` with the ending recorded in a newest row of the task, if it has one. */
  ghost predicate Recorded(t: Table, v: Table, id: TaskId, now: int, e: Ending, pick: Option<RowId>) {
    && IsNewest(t, id, pick)
    && match pick
       case None => v == t
       case Some(r) =>
         r in t && v.Keys == t.Keys && (forall x | x in t && x != r :: v[x] == t[x]) && Shows(t[r], v[r], now, e)
  }

  /** The rows of the task are as after recording the ending. */
  ghost predicate Written(t: Table, u: Table, id: TaskId, now: int, e: Ending) {
    exists v, pick :: Recorded(t, v, id, now, e, pick) && RowsKept(v, u, id)
  }

  lemma RecordingKeepsOwners(t: Table, v: Table, id: TaskId, now: int, e: Ending, pick: Option<RowId>, other: TaskId)
    requires Recorded(t, v, id, now, e, pick)
    ensures RowsOf(v, other) == RowsOf(t, other)
  {
    hide IsNewest;
    assert v.Keys == t.Keys && forall r | r in t :: v[r].task == t[r].task;
  }

  lemma RecordedElsewhere(t: Table, v: Table, id: TaskId, now: int, e: Ending, pick: Option<RowId>, other: TaskId)
    requires Recorded(t, v, id, now, e, pick) && other != id
    ensures RowsKept(t, v, other)
  {
    RecordingKeepsOwners(t, v, id, now, e, pick, other);
  }

  lemma RecordedLater(t: Table, u: Table, v: Table, id: TaskId, now: int, e: Ending, pick: Option<RowId>)
    requires RowsKept(t, u, id) && Recorded(u, v, id, now, e, pick)
    ensures Written(t, v, id, now, e)
  {
    var w := match pick case None => t case Some(r) => t[r := v[r]];
    assert IsNewest(t, id, pick);
    assert Recorded(t, w, id, now, e, pick);
    RecordingKeepsOwners(t, w, id, now, e, pick, id);
    RecordingKeepsOwners(u, v, id, now, e, pick, id);
    forall r | r in RowsOf(w, id) ensures v[r] == w[r] {
      assert r in RowsOf(t, id);
    }
    assert RowsKept(w, v, id);
  }

  lemma WrittenStays(t: Table, u: Table, v: Table, id: TaskId, now: int, e: Ending)
    requires Written(t, u, id, now, e) && RowsKept(u, v, id)
    ensures Written(t, v, id, now, e)
  {
    var w, pick :| Recorded(t, w, id, now, e, pick) && RowsKept(w, u, id);
    hide Recorded;
    assert RowsKept(w, v, id);
  }

  function HandlesOf(s: State, ids: set<TaskId>): set<Handle>
    requires ids <= s.running.Keys
  {
    set id | id in ids :: s.running[id].handle
  }

  function KilledOf(s: State, codes: Handle -> int, ids: set<TaskId>): set<Handle>
    requires ids <= s.running.Keys
  {
    set id | id in ids && Ends(s, codes, id) == Some(Expired(true)) :: s.running[id].handle
  }

  ghost predicate HistorySettled(s0: State, codes: Handle -> int, t: Table, ended: set<TaskId>) {
    forall id ::
      if id in ended then Ends(s0, codes, id).Some? && Written(s0.history, t, id, Stamp(s0.now), Ends(s0, codes, id).value)
      else RowsKept(s0.history, t, id)
  }

  /** The pass that began in `s0` has dealt with the entries `ended`: their handles are
      closed, the processes to be killed are gone, each has its row written, and nothing else
      has changed. */
  ghost predicate Settled(s0: State, codes: Handle -> int, s: State, ended: set<TaskId>) {
    && ended <= Ended(s0, codes)
    && s.closed == s0.closed + HandlesOf(s0, ended)
    && s.live == s0.live - KilledOf(s0, codes, ended)
    && HistorySettled(s0, codes, s.history, ended)
    && s == s0.(running := s.running, pass := s.pass, closed := s.closed, live := s.live, history := s.history,
                faulty := s.faulty)
  }

  lemma HistorySettlesMore(s0: State, codes: Handle -> int, t: Table, ended: set<TaskId>, id: TaskId,
                           pick: Option<RowId>, t': Table)
    requires HistorySettled(s0, codes, t, ended) && id !in ended && Ends(s0, codes, id).Some?
    requires Recorded(t, t', id, Stamp(s0.now), Ends(s0, codes, id).value, pick)
    ensures HistorySettled(s0, codes, t', ended + {id})
  {
    hide Ends, RowsKept, Written, Recorded;
    var e := Ends(s0, codes, id).value;
    RecordedLater(s0.history, t, t', id, Stamp(s0.now), e, pick);
    forall x | x != id
      ensures x in ended ==> Ends(s0, codes, x).Some? && Written(s0.history, t', x, Stamp(s0.now), Ends(s0, codes, x).value)
      ensures x !in ended ==> RowsKept(s0.history, t', x)
    {
      RecordedElsewhere(t, t', id, Stamp(s0.now), e, pick, x);
      if x in ended {
        WrittenStays(s0.history, t, t', x, Stamp(s0.now), Ends(s0, codes, x).value);
      } else {
        KeptTwice(s0.history, t, t', x);
      }
    }
  }

  lemma KeptTwice(t: Table, u: Table, v: Table, id: TaskId)
    requires RowsKept(t, u, id) && RowsKept(u, v, id)
    ensures RowsKept(t, v, id)
  {}

  lemma SetsGrow(s0: State, codes: Handle -> int, ended: set<TaskId>, id: TaskId)
    requires ended <= s0.running.Keys && id in s0.running
    ensures HandlesOf(s0, ended + {id}) == HandlesOf(s0, ended) + {s0.running[id].handle}
    ensures KilledOf(s0, codes, ended + {id}) == KilledOf(s0, codes, ended)
      + if Ends(s0, codes, id) == Some(Expired(true)) then {s0.running[id].handle} else {}
  {}

  lemma SettlesMore(s0: State, codes: Handle -> int, s: State, ended: set<TaskId>, id: TaskId,
                    pick: Option<RowId>, s': State)
    requires Settled(s0, codes, s, ended) && id !in ended && Ends(s0, codes, id).Some?
    requires Recorded(s.history, s'.history, id, Stamp(s0.now), Ends(s0, codes, id).value, pick)
    requires s'.closed == s.closed + {s0.running[id].handle}
    requires s'.live == s.live - if Ends(s0, codes, id) == Some(Expired(true)) then {s0.running[id].handle} else {}
    requires s' == s.(running := s'.running, pass := s'.pass, closed := s'.closed, live := s'.live,
                      history := s'.history, faulty := s'.faulty)
    ensures Settled(s0, codes, s', ended + {id})
  {
    HistorySettlesMore(s0, codes, s.history, ended, id, pick, s'.history);
    SetsGrow(s0, codes, ended, id);
    assert id in Ended(s0, codes);
    hide HistorySettled, Recorded, Ends, HandlesOf, KilledOf;
  }

  // ---- how the snapshot is divided ----

  predicate FoundExited(s: State, codes: Handle -> int, id: TaskId) {
    Ends(s, codes, id).Some? && Ends(s, codes, id).value.Exited?
  }

  predicate FoundLate(s: State, codes: Handle -> int, id: TaskId) {
    Ends(s, codes, id).Some? && Ends(s, codes, id).value.Expired?
  }

  /** The two lists hold the entries of `copy` that have exited and those that are late. */
  ghost predicate Divided(s: State, codes: Handle -> int, copy: seq<(TaskId, Proc)>, exited: seq<TaskId>, late: seq<TaskId>) {
    && (forall id :: id in exited <==> Mentions(copy, id) && FoundExited(s, codes, id))
    && (forall id :: id in late <==> Mentions(copy, id) && FoundLate(s, codes, id))
    && NoDuplicates(late)
  }

  lemma DividedMore(s: State, codes: Handle -> int, copy: seq<(TaskId, Proc)>, entry: (TaskId, Proc),
                    exited: seq<TaskId>, late: seq<TaskId>)
    requires Divided(s, codes, copy, exited, late) && !Mentions(copy, entry.0)
    ensures Divided(s, codes, copy + [entry],
              exited + if FoundExited(s, codes, entry.0) then [entry.0] else [],
              late + if FoundLate(s, codes, entry.0) then [entry.0] else [])
  {
    hide FoundExited, FoundLate;
    forall id ensures Mentions(copy + [entry], id) <==> Mentions(copy, id) || id == entry.0 {
      assert (copy + [entry])[|copy|] == entry;
      if Mentions(copy, id) {
        var j :| 0 <= j < |copy| && copy[j].0 == id;
        assert (copy + [entry])[j].0 == id;
      }
    }
  }

  lemma DividedAll(s: State, codes: Handle -> int, copy: seq<(TaskId, Proc)>, exited: seq<TaskId>, late: seq<TaskId>)
    requires Divided(s, codes, copy, exited, late) && forall id | id in s.running :: Mentions(copy, id)
    ensures Elements(exited) + Elements(late) == Ended(s, codes)
    ensures Elements(exited) !! Elements(late)
  {}

  lemma NoneKilled(s: State, codes: Handle -> int, ids: set<TaskId>)
    requires ids <= s.running.Keys && forall id | id in ids :: FoundExited(s, codes, id)
    ensures KilledOf(s, codes, ids) == {}
  {}

  /** After an undisturbed pass, every entry left is the entry of a deleted task, or belongs to
      a process that is alive and younger than its limit; and an entry is removed only if its
      process had exited or had reached the limit. */
  lemma TimeoutExactness(s0: State, codes: Handle -> int, s: State)
    requires HandlesOk(s0) && Settled(s0, codes, s, Ended(s0, codes))
    requires s.running == s0.running - Ended(s0, codes)
    ensures forall id | id in s.running && id in s.tasks ::
              s.running[id].handle in s.live && !TimedOut(s.tasks[id], s0.now, s.running[id])
    ensures forall id | id in s0.running && id !in s.running ::
              && id in s.tasks
              && (s0.running[id].handle !in s0.live || TimedOut(s.tasks[id], s0.now, s0.running[id]))
  {
    hide HistorySettled;
    forall id | id in s.running && id in s.tasks ensures s.running[id].handle in s.live {
      if x :| x in Ended(s0, codes) && s0.running[x].handle == s.running[id].handle {
        DistinctTracked(s0);
        assert false;
      }
    }
  }

  // ---- the pass, step by step ----

  datatype Checked = Missing | StillRunning | HasExited | Overdue

  ghost predicate Copied(copy: seq<(TaskId, Proc)>, s: State) {
    && (forall i, j | 0 <= i < j < |copy| :: copy[i].0 != copy[j].0)
    && (forall i | 0 <= i < |copy| :: copy[i].0 in s.running && s.running[copy[i].0] == copy[i].1)
    && (forall id | id in s.running :: Mentions(copy, id))
  }

  lemma NothingSettled(s0: State, codes: Handle -> int, s: State)
    requires s == s0.(pass := s.pass)
    ensures Settled(s0, codes, s, {}) && Settled(s0, codes, s, Elements<TaskId>([]))
    ensures Divided(s0, codes, [], [], [])
  {
    assert Elements<TaskId>([]) == {};
  }

  /** What the check of one entry says in a state that the pass has reached. */
  lemma CheckedMeans(s0: State, codes: Handle -> int, s: State, ended: set<TaskId>, id: TaskId, v: Checked)
    requires Settled(s0, codes, s, ended) && forall x | x in ended :: FoundExited(s0, codes, x)
    requires id in s0.running
    requires v == if id !in s.tasks then Missing
                  else if s0.running[id].handle !in s.live then HasExited
                  else if TimedOut(s.tasks[id], s0.now, s0.running[id]) then Overdue else StillRunning
    ensures v == HasExited <==> FoundExited(s0, codes, id)
    ensures v == HasExited ==> Ends(s0, codes, id) == Some(Exited(codes(s0.running[id].handle)))
    ensures v == Overdue <==> FoundLate(s0, codes, id)
    ensures s.now == s0.now
  {
    hide HistorySettled, TimedOut;
    NoneKilled(s0, codes, ended);
  }

  lemma SettledStays(s0: State, codes: Handle -> int, s: State, s': State, ended: set<TaskId>)
    requires Settled(s0, codes, s, ended) && s' == s.(running := s'.running, pass := s'.pass, faulty := s'.faulty)
    ensures Settled(s0, codes, s', ended)
  {}

  lemma OneMoreExamined(s0: State, codes: Handle -> int, copy: seq<(TaskId, Proc)>, i: nat, s: State, v: Checked,
                        pick: Option<RowId>, s': State, exited: seq<TaskId>, late: seq<TaskId>,
                        exited': seq<TaskId>, late': seq<TaskId>)
    requires i < |copy| && Copied(copy, s0)
    requires Settled(s0, codes, s, Elements(exited)) && Divided(s0, codes, copy[..i], exited, late)
    requires var (id, proc) := copy[i];
             v == if id !in s.tasks then Missing
                  else if proc.handle !in s.live then HasExited
                  else if TimedOut(s.tasks[id], s0.now, proc) then Overdue else StillRunning
    requires v == HasExited ==>
               && s'.closed == s.closed + {copy[i].1.handle}
               && Recorded(s.history, s'.history, copy[i].0, Stamp(s.now), Exited(codes(copy[i].1.handle)), pick)
    requires v != HasExited ==> s'.closed == s.closed && s'.history == s.history
    requires s' == s.(pass := s'.pass, closed := s'.closed, history := s'.history, faulty := s'.faulty)
    requires exited' == exited + if v == HasExited then [copy[i].0] else []
    requires late' == late + if v == Overdue then [copy[i].0] else []
    ensures Settled(s0, codes, s', Elements(exited')) && Divided(s0, codes, copy[..i + 1], exited', late')
  {
    var id := copy[i].0;
    assert copy[..i] + [copy[i]] == copy[..i + 1];
    assert !Mentions(copy[..i], id);
    CheckedMeans(s0, codes, s, Elements(exited), id, v);
    DividedMore(s0, codes, copy[..i], copy[i], exited, late);
    if v == HasExited {
      assert id !in exited;
      assert Elements(exited') == Elements(exited) + {id};
      SettlesMore(s0, codes, s, Elements(exited), id, pick, s');
    } else {
      SettledStays(s0, codes, s, s', Elements(exited));
    }
  }

  /** The late entries `late[..i]` are dealt with, after all that had exited. */
  ghost predicate ExpiredUpTo(s0: State, codes: Handle -> int, s: State, exited: set<TaskId>, late: seq<TaskId>, i: nat)
    requires i <= |late|
  {
    && (forall id | id in late :: FoundLate(s0, codes, id) && id !in exited) && NoDuplicates(late)
    && Settled(s0, codes, s, exited + Elements(late[..i]))
    && s.running == s0.running - (exited + Elements(late[..i]))
  }

  lemma SettledFrame(s0: State, codes: Handle -> int, s: State, ended: set<TaskId>)
    requires Settled(s0, codes, s, ended)
    ensures s.tasks == s0.tasks && s.now == s0.now && ended <= Ended(s0, codes)
  {}

  lemma NextIsLate(s0: State, codes: Handle -> int, s: State, exited: set<TaskId>, late: seq<TaskId>, i: nat)
    requires i < |late| && ExpiredUpTo(s0, codes, s, exited, late, i)
    ensures var id := late[i];
            && id in s.running && s.running[id] == s0.running[id] && id !in exited + Elements(late[..i])
            && s.tasks == s0.tasks && s.now == s0.now && id in s.tasks
            && Ends(s0, codes, id) == Some(Expired(s0.tasks[id].kill))
    ensures exited + Elements(late[..i + 1]) == exited + Elements(late[..i]) + {late[i]}
  {
    hide Settled;
    SettledFrame(s0, codes, s, exited + Elements(late[..i]));
    assert late[..i + 1] == late[..i] + [late[i]];
    assert FoundLate(s0, codes, late[i]);
  }

  lemma OneMoreExpired(s0: State, codes: Handle -> int, s: State, exited: set<TaskId>, late: seq<TaskId>, i: nat,
                       pick: Option<RowId>, s': State)
    requires i < |late| && ExpiredUpTo(s0, codes, s, exited, late, i) && late[i] in s.running && late[i] in s.tasks
    requires var id, kill, h := late[i], s.tasks[late[i]].kill, s.running[late[i]].handle;
             && s'.running == s.running - {id}
             && s'.closed == s.closed + {h}
             && s'.live == (if kill then s.live - {h} else s.live)
             && Recorded(s.history, s'.history, id, Stamp(s.now), Expired(kill), pick)
             && s' == s.(running := s'.running, pass := s'.pass, closed := s'.closed, live := s'.live,
                         history := s'.history, faulty := s'.faulty)
    ensures ExpiredUpTo(s0, codes, s', exited, late, i + 1)
  {
    NextIsLate(s0, codes, s, exited, late, i);
    hide Settled, Recorded, FoundLate;
    assert s.live - {} == s.live;
    SettlesMore(s0, codes, s, exited + Elements(late[..i]), late[i], pick, s');
  }

  lemma ReadyToExpire(s0: State, codes: Handle -> int, copy: seq<(TaskId, Proc)>, exited: seq<TaskId>, late: seq<TaskId>,
                      s: State, s': State)
    requires Settled(s0, codes, s, Elements(exited)) && Divided(s0, codes, copy, exited, late)
    requires s.running == s0.running && s'.running == s.running - Elements(exited)
    requires s' == s.(running := s'.running, pass := s'.pass, faulty := s'.faulty)
    ensures ExpiredUpTo(s0, codes, s', Elements(exited), late, 0)
  {
    SettledStays(s0, codes, s, s', Elements(exited));
    hide Settled;
    assert Elements(late[..0]) == {};
    assert Elements(exited) + Elements(late[..0]) == Elements(exited);
  }

  // ---- a pass during which processes exit and the clock moves ----

  /** The two lists divide `copy` soundly and leave out nothing: `exited` holds entries whose
      process is gone by now, `late` holds entries that were late when the pass began, and every
      entry that was gone or late when the pass began is in one of them. */
  ghost predicate Sifted(s0: State, live: set<Handle>, copy: seq<(TaskId, Proc)>, exited: seq<TaskId>, late: seq<TaskId>) {
    && (forall id | id in exited :: id in s0.running && id in s0.tasks && s0.running[id].handle !in live)
    && (forall id | id in late :: id in s0.running && id in s0.tasks && TimedOut(s0.tasks[id], s0.now, s0.running[id]))
    && (forall id | Mentions(copy, id) && id in s0.running && Overstayed(s0, id) :: id in exited || id in late)
  }

  /** The process has exited or has reached the limit of its task. */
  predicate Overstayed(s: State, id: TaskId)
    requires id in s.running
  {
    id in s.tasks && (s.running[id].handle !in s.live || TimedOut(s.tasks[id], s.now, s.running[id]))
  }

  lemma NothingSifted(s0: State, live: set<Handle>, copy: seq<(TaskId, Proc)>)
    ensures Sifted(s0, live, copy[..0], [], [])
  {}

  lemma SiftedMore(s0: State, live: set<Handle>, copy: seq<(TaskId, Proc)>, i: nat, v: Checked, live': set<Handle>,
                   exited: seq<TaskId>, late: seq<TaskId>)
    requires i < |copy| && Sifted(s0, live, copy[..i], exited, late) && live' <= live && live' <= s0.live
    requires copy[i].0 in s0.running && s0.running[copy[i].0] == copy[i].1
    requires var (id, proc) := copy[i];
             v == if id !in s0.tasks then Missing
                  else if proc.handle !in live' then HasExited
                  else if TimedOut(s0.tasks[id], s0.now, proc) then Overdue else StillRunning
    ensures Sifted(s0, live', copy[..i + 1], exited + if v == HasExited then [copy[i].0] else [],
                   late + if v == Overdue then [copy[i].0] else [])
  {
    hide TimedOut;
    forall id | Mentions(copy[..i + 1], id) && id != copy[i].0 ensures Mentions(copy[..i], id) {
      var j :| 0 <= j < i + 1 && copy[..i + 1][j].0 == id;
      assert copy[..i][j].0 == id;
    }
  }

  /** Between what had to be ended when the pass began and what could be ended when it was over:
      entries are only removed, each because its process is gone or was late when the pass began;
      and of those that had exited or were late when it began none is left. */
  ghost predicate Swept(s0: State, s: State) {
    && (forall id | id in s.running :: id in s0.running && s.running[id] == s0.running[id] && !Overstayed(s0, id))
    && (forall id | id in s0.running && id !in s.running ::
          id in s0.tasks && (s0.running[id].handle !in s.live || TimedOut(s0.tasks[id], s0.now, s0.running[id])))
  }

  lemma AllSwept(s0: State, s: State, copy: seq<(TaskId, Proc)>, exited: seq<TaskId>, late: seq<TaskId>)
    requires Copied(copy, s0) && Sifted(s0, s.live, copy, exited, late)
    requires s.running == s0.running - Elements(exited) - Elements(late)
    ensures Swept(s0, s)
  {
    hide TimedOut;
  }

  lemma CopiedLater(copy: seq<(TaskId, Proc)>, s: State, t: State)
    requires Copied(copy, t) && s.running == t.running
    ensures Copied(copy, s)
  {}

  lemma SiftedLater(s0: State, live: set<Handle>, live': set<Handle>, copy: seq<(TaskId, Proc)>, exited: seq<TaskId>,
                    late: seq<TaskId>)
    requires Sifted(s0, live, copy, exited, late) && live' <= live
    ensures Sifted(s0, live', copy, exited, late)
  {}

  /** Every entry of a known task belongs to a process that is alive and not over its limit. */
  predicate NoneLeft(s: State) {
    forall id | id in s.running && id in s.tasks ::
      s.running[id].handle in s.live && !TimedOut(s.tasks[id], s.now, s.running[id])
  }

  lemma AllExpired(s0: State, codes: Handle -> int, copy: seq<(TaskId, Proc)>, exited: seq<TaskId>, late: seq<TaskId>,
                   e: State, s: State)
    requires HandlesOk(s0) && Copied(copy, s0) && Divided(s0, codes, copy, exited, late)
    requires ExpiredUpTo(s0, codes, e, Elements(exited), late, |late|) && s == e.(pass := Idle)
    ensures Settled(s0, codes, s, Ended(s0, codes)) && s.running == s0.running - Ended(s0, codes)
    ensures NoneLeft(s)
  {
    assert late[..|late|] == late;
    DividedAll(s0, codes, copy, exited, late);
    SettledStays(s0, codes, e, s, Ended(s0, codes));
    SettledFrame(s0, codes, s, Ended(s0, codes));
    TimeoutExactness(s0, codes, s);
  }
}
