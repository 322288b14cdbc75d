/** The scheduler service: its maps and queues, the tables and processes it works on, and the
    operations of its worker thread. Every operation is shown to be a run of the engine. */
module Scheduler {
  import opened Common
  import opened History
  import opened Engine
  import opened Handles
  import opened Discipline
  import opened Ownership
  import opened LiveProcesses
  import opened Settling
  import opened Timeouts
  import opened Solo
  import opened Chronicle
  import opened TimeWindows
  import opened Schedule
  import opened Deciding

  /** What else happens during a call: nothing at all; or other threads and processes go on
      wherever the worker holds no lock. */
  datatype Company = Alone | Others

  /** What writing the launcher's copy back makes of its row. */
  lemma RowWritten(t: Table, row: RowId, id: TaskId, pid: int)
    requires RowBelongs(t, row, id)
    ensures var u := Update(t, row, Row(id, 0, None, None, pid, Running, NoMessage));
            if row in t then u == t[row := Row(id, t[row].start, None, None, pid, Running, NoMessage)] else u == t
  {}

  /** The process number that a launch writes into its row. */
  function NumberOf(l: Launch): int {
    if l.Tracked? then l.pid else 0
  }

  /** The map after a launch that has made the process `made`, or none. */
  predicate TracksMade(before: map<TaskId, Proc>, after: map<TaskId, Proc>, id: TaskId, made: Option<Handle>) {
    match made
    case None => after == before
    case Some(h) => id in after && after == before[id := Proc(h, after[id].start)]
  }

  class Scheduler {
    // the service's own fields
    var running: map<TaskId, Proc>
    var pending: map<TaskId, seq<int>>
    var lastRun: map<TaskId, int>

    // the tables
    var tasks: map<TaskId, Task>
    var windows: map<TaskId, seq<Window>>
    var history: Table
    var usedRows: set<RowId>

    // the machine
    var now: int
    var live: set<Handle>
    var issued: set<Handle>
    var launches: map<Thread, Launch>
    const local: int -> Moment
    const exitCode: Handle -> int

    /** No client ever asks for a launch or edits a task. */
    const clientless: bool

    // bookkeeping
    ghost var pass: Pass
    ghost var closed: set<Handle>
    ghost var origin: map<Handle, Origin>
    ghost var overwritten: nat
    ghost var faulty: bool
    ghost var trace: seq<Event>
    ghost var attempts: seq<TaskId>
    ghost var deferred: seq<TaskId>
    ghost const start: State

    ghost function St(): State
      reads `now, `tasks, `history, `usedRows, `running, `launches, `pass, `issued, `closed, `live, `origin, `overwritten,
        `faulty
    {
      State(now, tasks, history, usedRows, running, launches, pass, issued, closed, live, origin, overwritten, faulty)
    }

    /** Without clients only the worker launches. */
    predicate ClientsStayAway()
      reads `launches
    {
      clientless ==> launches.Keys <= {WORKER}
    }

    /** What the worker makes sure of before it launches a task, if no client interferes. */
    predicate MayLaunch(id: TaskId)
      reads `tasks, `running
    {
      clientless && id in tasks ==> tasks[id].enabled && (id in running ==> !Waits(tasks[id]))
    }

    ghost predicate Valid()
      reads `now, `tasks, `history, `usedRows, `running, `launches, `pass, `issued, `closed, `live, `origin, `overwritten,
        `faulty, `trace
    {
      && Past(clientless, exitCode, start, trace) && After(start, trace) == St()
      && ClientsStayAway() && (clientless ==> tasks == start.tasks)
    }

    /** A queue is as long as its task has been deferred often, and no queue is empty. Without
        clients only enabled tasks are ever queued whose overlap action is to wait for the run to
        complete. */
    ghost predicate Accounted()
      reads `pending, `deferred
    {
      && (forall id :: |QueueOf(pending, id)| == multiset(deferred)[id])
      && (forall id | id in pending :: pending[id] != [])
      && (clientless ==> forall id | id in pending ::
            id in start.tasks && start.tasks[id].enabled && start.tasks[id].overlap.WaitComplete?)
    }

    /** Between two operations of the worker. */
    ghost predicate Ready()
      reads `now, `tasks, `history, `usedRows, `running, `launches, `pass, `issued, `closed, `live, `origin, `overwritten,
        `faulty, `trace
    {
      Valid() && pass.Idle? && WORKER !in launches
    }

    lemma QueuedIsEnabled(id: TaskId)
      requires Ready() && Accounted() && id in pending
      ensures clientless ==> id in tasks && tasks[id].enabled
    {}

    /** A task that is not to wait for a run to complete is never put off. */
    lemma OnlyWaitCompleteIsPutOff()
      requires Ready() && Accounted()
      ensures clientless ==> forall id | id in deferred :: id in tasks && tasks[id].overlap.WaitComplete?
    {
      hide ClientsStayAway;
      DeferredAreQueued();
    }

    lemma StillTheSameTasks()
      requires Ready()
      ensures clientless ==> tasks == start.tasks
    {}

    lemma NobodyLaunching(th: Thread)
      requires Valid() && th !in launches
      ensures clientless && th == WORKER ==> launches == map[]
    {}

    lemma DeferredAreQueued()
      requires Accounted()
      ensures forall id :: (id in deferred <==> id in pending) && (id in pending <==> QueueOf(pending, id) != [])
    {
      forall id ensures id in deferred <==> id in pending {
        assert id in deferred <==> multiset(deferred)[id] > 0;
        assert |QueueOf(pending, id)| == multiset(deferred)[id];
      }
    }

    lemma QueuesAreNotEmpty()
      requires Accounted()
      ensures forall id | id in pending :: pending[id] != []
    {}

    lemma StateIsSafe()
      requires Valid()
      ensures HandlesOk(St()) && !faulty
      ensures pass.Idle? ==> TrackedHandles(St()) <= issued - closed && |Lost(St())| == overwritten
      ensures clientless && Waiting(tasks) ==> overwritten == 0
      ensures clientless && Waiting(tasks) && pass.Idle? && launches == map[] ==> issued == closed + TrackedHandles(St())
      ensures clientless && Waiting(tasks) && Killing(tasks) ==> AtMostOneEach(St())
      ensures clientless && SteadyRun(start, trace) ==> !EarlyTake(St())
    {
      hide HandlesOk, TrackedHandles, Lost, Waiting, Killing, AtMostOneEach, Past, After, ClientsStayAway, SteadyRun;
      hide EarlyTake;
      PastIsSafe(clientless, exitCode, start, trace);
      assert trace + [] == trace;
      if clientless && SteadyRun(start, trace) { PastTimeouts(exitCode, start, trace, []); }
    }

    lemma RestIsSafe()
      requires Ready()
      ensures HandlesOk(St()) && !faulty && TrackedHandles(St()) <= issued - closed && |Lost(St())| == overwritten
      ensures clientless && Waiting(tasks) ==> issued == closed + TrackedHandles(St())
      ensures clientless && Waiting(tasks) && Killing(tasks) ==> AtMostOneEach(St())
    {
      hide HandlesOk, TrackedHandles, Lost, Waiting, Killing, AtMostOneEach, Past, After, ClientsStayAway;
      StateIsSafe();
      NobodyLaunching(WORKER);
    }

    /** The tables are as the database has them. */
    constructor (tasks: map<TaskId, Task>, windows: map<TaskId, seq<Window>>, history: Table, now: int,
                 local: int -> Moment, exitCode: Handle -> int, clientless: bool)
      requires Stored(tasks, history)
      ensures Ready() && Accounted() && St() == Initial(tasks, now, history) && start == St() && this.windows == windows
      ensures pending == map[] && lastRun == map[]
      ensures this.local == local && this.exitCode == exitCode && this.clientless == clientless
    {
      running, pending, lastRun := map[], map[], map[];
      this.tasks, this.windows, this.history, usedRows := tasks, windows, history, history.Keys;
      this.now, live, issued, launches := now, {}, {}, map[];
      this.local, this.exitCode, this.clientless := local, exitCode, clientless;
      pass, closed, origin, overwritten, faulty := Idle, {}, map[], 0, false;
      trace, attempts, deferred, start := [], [], [], Initial(tasks, now, history);
    }

    // ---- single events ----

    lemma WhatIsValid()
      requires Valid()
      ensures Past(clientless, exitCode, start, trace) && After(start, trace) == St()
      ensures ClientsStayAway() && (clientless ==> tasks == start.tasks)
    {}

    ghost method Note(e: Event, before: State)
      requires Past(clientless, exitCode, start, trace) && After(start, trace) == before
      requires Enabled(before, e) && St() == Next(before, e)
      requires Reports(exitCode, before, e) && (clientless ==> Solitary(before, e))
      requires ClientsStayAway() && (clientless ==> tasks == start.tasks)
      modifies `trace
      ensures Valid() && trace == old(trace) + [e]
    {
      hide Past, After, Solitary, Reports, Enabled, Next, ClientsStayAway;
      PastExtends(clientless, exitCode, start, trace, e);
      trace := trace + [e];
    }

    method InsertHistory(th: Thread, id: TaskId) returns (row: RowId)
      requires Valid() && th !in launches && id in tasks
      requires clientless ==> th == WORKER && pass.Idle? && MayLaunch(id)
      modifies `history, `usedRows, `launches, `trace
      ensures Valid() && row !in old(usedRows) && usedRows == old(usedRows) + {row} && St() == Next(old(St()), BeginLaunch(th, id, row))
      ensures launches == old(launches)[th := Begun(id, row)]
      ensures history == old(history)[row := Row(id, Stamp(now), None, None, 0, Running, NoMessage)]
      ensures trace == old(trace) + [BeginLaunch(th, id, row)]
    {
      hide Past, After;
      ghost var s := St();
      ghost var unused := FreshNumber(usedRows);
      row :| row !in usedRows;
      NobodyLaunching(th);
      BeginEvent(s, th, id, row);
      hide Next, Enabled;
      history := history[row := Row(id, Stamp(now), None, None, 0, Running, NoMessage)];
      usedRows := usedRows + {row};
      launches := launches[th := Begun(id, row)];
      Note(BeginLaunch(th, id, row), s);
    }

    method CreateProcess(th: Thread)
      requires Valid() && th in launches && launches[th].Begun? && (clientless ==> pass.Idle?)
      modifies `issued, `live, `launches, `origin, `trace
      ensures Valid() && th in launches && launches[th].Created? && launches[th].handle !in old(issued)
      ensures issued == old(issued) + {launches[th].handle}
      ensures var l, k := launches[th], old(launches)[th];
              && launches == old(launches)[th := Created(k.task, k.row, l.handle, l.pid)]
              && St() == Next(old(St()), Event.CreateProcess(th, l.handle, l.pid))
              && trace == old(trace) + [Event.CreateProcess(th, l.handle, l.pid)]
    {
      hide Past, After, Next, Enabled;
      ghost var s := St();
      var l := launches[th];
      ghost var unused := FreshNumber(issued);
      var h: Handle :| h !in issued;
      var pid: int := *;
      issued, live, origin := issued + {h}, live + {h}, origin[h := Origin(l.task, l.row, th)];
      launches := launches[th := Created(l.task, l.row, h, pid)];
      CreateEvent(s, th, h, pid);
      assert St() == CreateProcessNext(s, th, h, pid);
      assert ClientsStayAway();
      hide ClientsStayAway, CreateProcessNext;
      Note(Event.CreateProcess(th, h, pid), s);
    }

    method FailToCreate(th: Thread)
      requires Valid() && th in launches && launches[th].Begun? && (clientless ==> pass.Idle?)
      modifies `launches, `trace
      ensures Valid() && St() == Next(old(St()), CreateFails(th)) && trace == old(trace) + [CreateFails(th)]
      ensures launches == old(launches)[th := Refused(old(launches)[th].task, old(launches)[th].row)]
    {
      hide Past, After;
      ghost var s := St();
      launches := launches[th := Refused(launches[th].task, launches[th].row)];
      Note(CreateFails(th), s);
    }

    method TrackProcess(th: Thread)
      requires Valid() && th in launches && launches[th].Created? && (clientless ==> pass.Idle?)
      modifies `running, `launches, `overwritten, `trace
      ensures Valid() && St() == Next(old(St()), Track(th)) && trace == old(trace) + [Track(th)]
      ensures var l := old(launches)[th];
              && launches == old(launches)[th := Tracked(l.task, l.row, l.pid)]
              && running == old(running)[l.task := Proc(l.handle, now)]
    {
      hide Past, After, Next, Enabled;
      ghost var s := St();
      TrackEvent(s, th);
      var l := launches[th];
      overwritten := if l.task in running then overwritten + 1 else overwritten;
      running := running[l.task := Proc(l.handle, now)];
      launches := launches[th := Tracked(l.task, l.row, l.pid)];
      assert St() == TrackNext(s, th);
      assert ClientsStayAway();
      hide ClientsStayAway, TrackNext;
      Note(Track(th), s);
    }

    method WriteRowBack(th: Thread)
      requires Valid() && th in launches && (launches[th].Tracked? || launches[th].Refused?) && (clientless ==> pass.Idle?)
      modifies `history, `launches, `trace
      ensures Valid() && St() == Next(old(St()), EndLaunch(th)) && trace == old(trace) + [EndLaunch(th)]
      ensures launches == old(launches) - {th}
      ensures var l := old(launches)[th];
              history == Update(old(history), l.row, Row(l.task, 0, None, None, NumberOf(l), Running, NoMessage))
    {
      hide Past, After;
      ghost var s := St();
      var l := launches[th];
      history := Update(history, l.row, Row(l.task, 0, None, None, NumberOf(l), Running, NoMessage));
      launches := launches - {th};
      Note(EndLaunch(th), s);
    }

    /** The clock is read before the entries are copied. */
    ghost method StartPass()
      requires Ready()
      modifies `pass, `trace
      ensures Valid() && pass == Starting(now) && trace == old(trace) + [BeginPass] && St() == old(St()).(pass := pass)
    {
      hide Past, After;
      var s := St();
      pass := Starting(now);
      Note(BeginPass, s);
    }

    method CopyEntries(began: int) returns (copy: seq<(TaskId, Proc)>)
      requires Valid() && pass == Starting(began) && WORKER !in launches
      modifies `pass, `trace
      ensures Valid() && pass == Examining(began, copy, [], [])
      ensures Copied(copy, old(St()))
      ensures old(trace) <= trace && St() == old(St()).(pass := pass)
    {
      hide Past, After, Valid, ClientsStayAway;
      WhatIsValid();
      ghost var s := St();
      var order := Enumerate(running.Keys);
      assert forall i | 0 <= i < |order| :: order[i] in Elements(order);
      var entries := running;
      copy := seq(|order|, i requires 0 <= i < |order| => (order[i], entries[order[i]]));
      pass := Examining(began, copy, [], []);
      assert forall i | 0 <= i < |order| :: copy[i].0 == order[i];
      forall id | id in running ensures Mentions(copy, id) {
        assert id in Elements(order);
        var i :| 0 <= i < |order| && order[i] == id;
        assert copy[i].0 == id;
      }
      Note(Snapshot(order), s);
    }

    /** Completes the newest row of the task, if it has one. */
    method MarkCompleted(id: TaskId, code: int) returns (ghost pick: Option<RowId>)
      modifies `history
      ensures IsNewest(old(history), id, pick) && (pick.Some? ==> pick.value in old(history))
      ensures history == RecordExit(old(history), pick, Stamp(now), code)
      ensures Recorded(old(history), history, id, Stamp(now), Exited(code), pick)
    {
      var newest := Newest(history, id);
      pick := newest;
      if newest.Some? {
        var row := history[newest.value].(end := Some(Stamp(now)), exitCode := Some(code), status := Completed);
        history := Update(history, newest.value, row);
      }
    }

    /** Terminates the process if asked to, and marks the newest row of the task as timed out
        if it has one. */
    method Expire(id: TaskId, h: Handle, kill: bool) returns (ghost pick: Option<RowId>)
      modifies `live, `history
      ensures live == if kill then old(live) - {h} else old(live)
      ensures IsNewest(old(history), id, pick) && (pick.Some? ==> pick.value in old(history))
      ensures history == RecordTimeout(old(history), pick, Stamp(now), kill)
      ensures Recorded(old(history), history, id, Stamp(now), Expired(kill), pick)
    {
      if kill { live := live - {h}; }
      var newest := Newest(history, id);
      pick := newest;
      if newest.Some? {
        var message := if kill then KilledByTimeout else TimeoutExceeded;
        var row := history[newest.value].(end := Some(Stamp(now)), status := Timeout, message := message);
        history := Update(history, newest.value, row);
      }
    }

    method CloseExited(id: TaskId, proc: Proc) returns (ghost pick: Option<RowId>)
      requires Valid() && WORKER !in launches && pass.Examining? && pass.todo != [] && pass.todo[0] == (id, proc)
      requires id in tasks && proc.handle !in live
      modifies `history, `closed, `faulty, `pass, `trace
      ensures Valid() && pass == old(pass).(todo := old(pass).todo[1..], exited := old(pass).exited + [id])
      ensures closed == old(closed) + {proc.handle}
      ensures Recorded(old(history), history, id, Stamp(now), Exited(exitCode(proc.handle)), pick)
      ensures old(trace) <= trace
    {
      hide Past, After, IsNewest, Update, Next, Enabled, Valid, ClientsStayAway;
      WhatIsValid();
      ghost var s := St();
      var code := exitCode(proc.handle);
      pick := MarkCompleted(id, code);
      hide RecordExit, Recorded;
      faulty, closed := faulty || proc.handle in closed, closed + {proc.handle};
      pass := pass.(todo := pass.todo[1..], exited := pass.exited + [id]);
      assert St() == ExamineNext(s, code, pick);
      ExamineEvent(s, code, pick);
      Note(Examine(code, pick), s);
    }

    method SetAside(id: TaskId, proc: Proc, late: bool)
      requires Valid() && WORKER !in launches && pass.Examining? && pass.todo != [] && pass.todo[0] == (id, proc)
      requires id in tasks ==> proc.handle in live
      requires late <==> id in tasks && TimedOut(tasks[id], pass.began, proc)
      modifies `faulty, `pass, `trace
      ensures Valid() && old(trace) <= trace
      ensures pass == old(pass).(todo := old(pass).todo[1..],
                                 timedOut := old(pass).timedOut + if late then [id] else [])
    {
      hide Past, After, IsNewest, Next, Enabled, Valid, ClientsStayAway;
      WhatIsValid();
      ghost var s := St();
      ghost var pick := NewestExists(history, id);
      faulty := faulty || (id in tasks && proc.handle in closed);
      pass := pass.(todo := pass.todo[1..], timedOut := pass.timedOut + if late then [id] else []);
      assert s.pass.timedOut + [] == s.pass.timedOut;
      assert St() == ExamineNext(s, 0, pick);
      ExamineEvent(s, 0, pick);
      Note(Examine(0, pick), s);
    }

    method ExamineEntry(began: int, id: TaskId, proc: Proc) returns (v: Checked, ghost pick: Option<RowId>)
      requires Valid() && WORKER !in launches && pass.Examining? && pass.began == began && pass.todo != [] && pass.todo[0] == (id, proc)
      modifies `history, `closed, `faulty, `pass, `trace
      ensures Valid() && old(trace) <= trace
      ensures v == if id !in tasks then Missing
                   else if proc.handle !in live then HasExited
                   else if TimedOut(tasks[id], began, proc) then Overdue else StillRunning
      ensures pass == old(pass).(
                todo := old(pass).todo[1..],
                exited := old(pass).exited + if v == HasExited then [id] else [],
                timedOut := old(pass).timedOut + if v == Overdue then [id] else [])
      ensures v == HasExited ==>
                && closed == old(closed) + {proc.handle}
                && Recorded(old(history), history, id, Stamp(now), Exited(exitCode(proc.handle)), pick)
      ensures v != HasExited ==> closed == old(closed) && history == old(history)
    {
      hide Past, After, Valid, TimedOut, Recorded;
      pick := None;
      if id !in tasks {
        v := Missing;
        SetAside(id, proc, false);
      } else if proc.handle !in live {
        v := HasExited;
        pick := CloseExited(id, proc);
      } else if TimedOut(tasks[id], began, proc) {
        v := Overdue;
        SetAside(id, proc, true);
      } else {
        v := StillRunning;
        SetAside(id, proc, false);
      }
    }

    method EraseEntries(exited: seq<TaskId>)
      requires Valid() && WORKER !in launches && pass.Examining? && pass.todo == [] && pass.exited == exited
      modifies `running, `pass, `trace
      ensures Valid() && running == old(running) - Elements(exited) && pass == Expiring(old(pass).timedOut)
      ensures old(trace) <= trace && St() == old(St()).(running := old(St()).running - Elements(exited), pass := pass)
    {
      hide Past, After;
      ghost var s := St();
      for i := 0 to |exited|
        modifies `running
        invariant running == old(running) - Elements(exited[..i])
      {
        running := running - {exited[i]};
        assert Elements(exited[..i + 1]) == Elements(exited[..i]) + {exited[i]};
      }
      assert exited[..|exited|] == exited;
      pass := Expiring(pass.timedOut);
      EraseEvent(s);
      hide Next, Enabled;
      Note(EraseExited, s);
    }

    /** The entry may be gone by now. */
    method TakeEntry(id: TaskId) returns (taken: Option<Proc>)
      requires Valid() && WORKER !in launches && pass.Expiring? && pass.due != [] && pass.due[0] == id
      modifies `running, `pass, `trace
      ensures Valid()
      ensures taken == if id in old(running) then Some(old(running)[id]) else None
      ensures running == old(running) - {id}
      ensures pass == if taken.Some? then Finishing(id, taken.value, old(pass).due[1..]) else Expiring(old(pass).due[1..])
      ensures old(trace) <= trace
    {
      hide Past, After;
      ghost var s := St();
      if id !in running {
        taken, pass := None, Expiring(pass.due[1..]);
      } else {
        taken := Some(running[id]);
        running := running - {id};
        pass := Finishing(id, taken.value, pass.due[1..]);
      }
      Note(TakeTimedOut, s);
    }

    predicate MustKill(id: TaskId)
      reads `tasks
    {
      id in tasks && tasks[id].kill
    }

    ghost method NoteFinish(s: State, pick: Option<RowId>, kill: bool)
      requires Past(clientless, exitCode, start, trace) && After(start, trace) == s
      requires s.pass.Finishing? && IsNewest(s.history, s.pass.task, pick) && (pick.Some? ==> pick.value in s.history)
      requires kill == (s.pass.task in s.tasks && s.tasks[s.pass.task].kill)
      requires live == if kill then s.live - {s.pass.proc.handle} else s.live
      requires history == RecordTimeout(s.history, pick, Stamp(s.now), kill)
      requires closed == s.closed + {s.pass.proc.handle} && faulty == (s.faulty || s.pass.proc.handle in s.closed)
      requires St() == s.(live := live, history := history, closed := closed, faulty := faulty,
                          pass := Expiring(s.pass.due))
      requires ClientsStayAway() && WORKER !in launches && (clientless ==> tasks == start.tasks)
      modifies `trace
      ensures Valid() && old(trace) <= trace
    {
      assert clientless ==> launches == map[];
      hide Past, After, IsNewest, RecordTimeout, ClientsStayAway, Next, Enabled;
      FinishEvent(s, pick, kill, St());
      Note(FinishTimedOut(pick), s);
    }

    method FinishEntry(id: TaskId, proc: Proc, kill: bool) returns (ghost pick: Option<RowId>)
      requires Valid() && WORKER !in launches && pass.Finishing? && pass.task == id && pass.proc == proc && kill == MustKill(id)
      modifies `live, `history, `closed, `faulty, `pass, `trace
      ensures Valid() && old(trace) <= trace && pass == Expiring(old(pass).due)
      ensures closed == old(closed) + {proc.handle}
      ensures live == if kill then old(live) - {proc.handle} else old(live)
      ensures Recorded(old(history), history, id, Stamp(now), Expired(kill), pick)
    {
      hide Past, After, IsNewest, RecordTimeout, Recorded, ClientsStayAway, Next, Enabled, Valid;
      WhatIsValid();
      ghost var s := St();
      pick := Expire(id, proc.handle, kill);
      faulty, closed := faulty || proc.handle in closed, closed + {proc.handle};
      pass := Expiring(pass.due);
      NoteFinish(s, pick, kill);
    }

    ghost method FinishPass()
      requires Valid() && WORKER !in launches && pass == Expiring([])
      modifies `pass, `trace
      ensures Valid() && pass == Idle && trace == old(trace) + [EndPass] && St() == old(St()).(pass := Idle)
    {
      hide Past, After;
      var s := St();
      pass := Idle;
      Note(EndPass, s);
    }

    // ---- what goes on elsewhere ----

    method ProcessEnds(h: Handle)
      requires Valid() && h in live
      modifies `live, `trace
      ensures Valid() && live == old(live) - {h} && trace == old(trace) + [ProcessExits(h)]
    {
      hide Past, After;
      ghost var s := St();
      live := live - {h};
      Note(ProcessExits(h), s);
    }

    method ClockMoves(time: int)
      requires Valid()
      modifies `now, `trace
      ensures Valid() && now == time && trace == old(trace) + [SetClock(time)]
    {
      hide Past, After;
      ghost var s := St();
      now := time;
      Note(SetClock(time), s);
    }

    method ClientEdits(edited: map<TaskId, Task>, newWindows: map<TaskId, seq<Window>>)
      requires Valid() && !clientless
      modifies `tasks, `windows, `history, `trace
      ensures Valid() && tasks == edited && windows == newWindows && trace == old(trace) + [EditTasks(edited)]
    {
      hide Past, After, Next, Enabled, CascadeDelete;
      ghost var s := St();
      tasks, windows := edited, newWindows;
      history := CascadeDelete(history, edited);
      EditEvent(s, edited);
      Note(EditTasks(edited), s);
    }

    /** The next step of a launch on a client thread. */
    method ClientLaunches(th: Thread)
      requires Valid() && !clientless && th != WORKER
      modifies `running, `history, `usedRows, `issued, `live, `launches, `origin, `overwritten, `trace
      ensures Valid() && old(trace) <= trace && old(issued) <= issued && old(usedRows) <= usedRows
      ensures WORKER in launches <==> WORKER in old(launches)
      ensures WORKER in launches ==> launches[WORKER] == old(launches)[WORKER]
    {
      hide Past, After, Valid;
      if th !in launches {
        var id: TaskId := *;
        if id in tasks { var row := InsertHistory(th, id); }
      } else {
        match launches[th]
        case Begun(_, _) => { var created: bool := *; if created { CreateProcess(th); } else { FailToCreate(th); } }
        case Created(_, _, _, _) => TrackProcess(th);
        case _ => WriteRowBack(th);
      }
    }

    /** Any one thing that a client thread, a process or the clock does. */
    method SomethingHappens()
      requires Valid()
      modifies `running, `history, `usedRows, `issued, `live, `launches, `origin, `overwritten, `now, `tasks, `windows
      modifies `trace
      ensures Valid() && old(trace) <= trace && old(issued) <= issued && old(usedRows) <= usedRows
      ensures WORKER in launches <==> WORKER in old(launches)
      ensures WORKER in launches ==> launches[WORKER] == old(launches)[WORKER]
      ensures clientless ==>
                && (running, history, tasks, windows, launches) == old((running, history, tasks, windows, launches))
                && live <= old(live)
    {
      hide Past, After, Valid;
      var what: nat := *;
      if what == 0 {
        var h: Handle := *;
        if h in live { ProcessEnds(h); }
      } else if what == 1 {
        var time: int := *;
        ClockMoves(time);
      } else if !clientless && what == 2 {
        var edited: map<TaskId, Task> := *;
        var newWindows: map<TaskId, seq<Window>> := *;
        ClientEdits(edited, newWindows);
      } else if !clientless {
        var th: Thread := *;
        if th != WORKER { ClientLaunches(th); }
      }
    }

    /** Nobody else launches or edits anything during the call. Processes may exit and the clock
        may move, unless the worker is alone. */
    predicate Unshared(company: Company) {
      clientless || company == Alone
    }

    /** Any number of such things; none if the worker is alone. */
    method Meanwhile(company: Company)
      requires Valid()
      modifies `running, `history, `usedRows, `issued, `live, `launches, `origin, `overwritten, `now, `tasks, `windows
      modifies `trace
      ensures Valid() && old(trace) <= trace && old(issued) <= issued && old(usedRows) <= usedRows
      ensures WORKER in launches <==> WORKER in old(launches)
      ensures WORKER in launches ==> launches[WORKER] == old(launches)[WORKER]
      ensures Unshared(company) ==>
                && (running, history, tasks, windows, launches) == old((running, history, tasks, windows, launches))
                && live <= old(live)
      ensures company == Alone ==> St() == old(St()) && trace == old(trace) && now == old(now)
    {
      if company == Alone { return; }
      hide Past, After, Valid;
      var n: int := *;
      var i := 0;
      while i < n
        invariant Valid() && old(trace) <= trace && old(issued) <= issued && old(usedRows) <= usedRows
        invariant WORKER in launches <==> WORKER in old(launches)
        invariant WORKER in launches ==> launches[WORKER] == old(launches)[WORKER]
        invariant clientless ==>
                    && (running, history, tasks, windows, launches) == old((running, history, tasks, windows, launches))
                    && live <= old(live)
      {
        SomethingHappens();
        i := i + 1;
      }
    }

    /** The same between two operations of the worker. */
    method Pause(company: Company)
      requires Ready()
      modifies `running, `history, `usedRows, `issued, `live, `launches, `origin, `overwritten, `now, `tasks, `windows
      modifies `trace
      ensures Ready() && old(trace) <= trace
      ensures Unshared(company) ==>
                (running, history, tasks, windows, launches) == old((running, history, tasks, windows, launches))
      ensures company == Alone ==> now == old(now)
    {
      hide Past, After, Valid, St;
      Meanwhile(company);
    }

    // ---- the worker's operations ----

    /** Creates the process and stores the entry, or fails and stores nothing. */
    method RunProcess(company: Company) returns (ghost made: Option<Handle>)
      requires Valid() && pass.Idle? && WORKER in launches && launches[WORKER].Begun?
      modifies `running, `history, `usedRows, `issued, `live, `launches, `origin, `overwritten, `now, `tasks, `windows
      modifies `trace
      ensures Valid() && old(trace) <= trace && WORKER in launches
      ensures var l, l' := old(launches)[WORKER], launches[WORKER];
              && l'.task == l.task && l'.row == l.row && (if made.Some? then l'.Tracked? else l'.Refused?)
              && (made.Some? ==>
                   && made.value in issued && made.value !in old(issued)
                   && l.task in running && running[l.task] == Proc(made.value, now)
                   && Event.CreateProcess(WORKER, made.value, l'.pid) in trace)
              && (Unshared(company) ==>
                   && (history, tasks, windows) == old((history, tasks, windows))
                   && TracksMade(old(running), running, l.task, made))
      ensures company == Alone ==> now == old(now)
    {
      hide Past, After, Valid, St, Next, Enabled, ClientsStayAway;
      var created: bool := *;
      if created {
        CreateProcess(WORKER);
        made := Some(launches[WORKER].handle);
        ghost var done := trace;
        assert done[|done| - 1] == Event.CreateProcess(WORKER, made.value, launches[WORKER].pid);
        Meanwhile(company);
        assert trace[|done| - 1] == done[|done| - 1];
        TrackProcess(WORKER);
      } else {
        FailToCreate(WORKER);
        made := None;
      }
    }

    lemma RowIsOwn(th: Thread)
      requires Valid() && th in launches
      ensures RowBelongs(history, launches[th].row, launches[th].task)
    {
      hide Next, Enabled, ClientsStayAway;
      OwnRowsRun(start, trace);
    }

    /** The row gets the launcher's copy, whatever has become of it meanwhile. */
    method EndLaunchOf(id: TaskId, row: RowId, company: Company)
      requires Valid() && pass.Idle? && WORKER in launches && (launches[WORKER].Tracked? || launches[WORKER].Refused?)
      requires launches[WORKER].task == id && launches[WORKER].row == row
      modifies `running, `history, `usedRows, `issued, `live, `launches, `origin, `overwritten, `now, `tasks, `windows
      modifies `trace
      ensures Ready() && old(trace) <= trace
      ensures row in history ==>
                history[row] == Row(id, history[row].start, None, None, NumberOf(old(launches)[WORKER]), Running, NoMessage)
      ensures Unshared(company) ==>
                && (running, tasks, windows) == old((running, tasks, windows))
                && (row in old(history) ==>
                     && row in history && history == old(history)[row := history[row]]
                     && history[row].start == old(history)[row].start)
      ensures company == Alone ==> now == old(now)
    {
      hide Past, After, Valid, St, Next, Enabled, ClientsStayAway, Update, RowBelongs;
      Meanwhile(company);
      RowIsOwn(WORKER);
      RowWritten(history, row, id, NumberOf(launches[WORKER]));
      WriteRowBack(WORKER);
    }

    /** Inserts a row, runs the process, writes the row back. A launch that fails leaves a row
        of its own, open and without a process number. */
    method LaunchKnown(id: TaskId, company: Company) returns (ghost row: RowId, ghost made: Option<Handle>)
      requires Ready() && id in tasks && MayLaunch(id)
      modifies `running, `history, `usedRows, `issued, `live, `launches, `origin, `overwritten, `now, `tasks, `windows
      modifies `trace
      ensures Ready() && old(trace) <= trace
      ensures row !in old(usedRows) && (made.Some? ==> made.value !in old(issued))
      ensures row in history ==>
                && history[row] == Row(id, history[row].start, None, None, history[row].pid, Running, NoMessage)
                && (if made.None? then history[row].pid == 0
                    else Event.CreateProcess(WORKER, made.value, history[row].pid) in trace)
      ensures Unshared(company) ==>
                && (tasks, windows) == old((tasks, windows)) && TracksMade(old(running), running, id, made)
                && row in history && history == old(history)[row := history[row]]
                && history[row].start == Stamp(old(now))
      ensures company == Alone ==> now == old(now) && (made.Some? ==> running[id].start == now)
    {
      hide Past, After, Valid, St, Next, Enabled, ClientsStayAway, Stamp, TracksMade;
      var r := InsertHistory(WORKER, id);
      row := r;
      Meanwhile(company);
      made := RunProcess(company);
      EndLaunchOf(id, r, company);
    }

    /** Nothing is done if the task has been deleted: its row is refused. The process number in the
        row is the one that came with the handle. */
    method LaunchTask(id: TaskId, company: Company)
      returns (inserted: bool, ghost row: RowId, ghost made: Option<Handle>)
      requires Ready() && MayLaunch(id)
      modifies `running, `history, `usedRows, `issued, `live, `launches, `origin, `overwritten, `now, `tasks, `windows
      modifies `trace, `attempts
      ensures Ready() && old(trace) <= trace
      ensures inserted <==> id in old(tasks)
      ensures attempts == if inserted then old(attempts) + [id] else old(attempts)
      ensures !inserted ==> made.None? && St() == old(St()) && (running, tasks, windows) == old((running, tasks, windows))
      ensures inserted ==> row !in old(usedRows) && (made.Some? ==> made.value !in old(issued))
      ensures inserted && row in history ==>
                && history[row] == Row(id, history[row].start, None, None, history[row].pid, Running, NoMessage)
                && (if made.None? then history[row].pid == 0
                    else Event.CreateProcess(WORKER, made.value, history[row].pid) in trace)
      ensures Unshared(company) ==>
                && (tasks, windows) == old((tasks, windows)) && TracksMade(old(running), running, id, made)
                && (inserted ==> row in history && history == old(history)[row := history[row]]
                                 && history[row].start == Stamp(old(now)))
      ensures company == Alone ==> now == old(now) && (made.Some? ==> running[id].start == now)
    {
      hide Past, After, Valid, St, Next, Enabled, ClientsStayAway;
      row, made := 0, None;
      if id !in tasks { return false, row, made; }
      inserted, attempts := true, attempts + [id];
      row, made := LaunchKnown(id, company);
    }

    /** Looks at entry `i` of the copy. `s0` is the state in which the pass began; what is said
        about it holds when nobody interferes. */
    method ExamineOne(began: int, copy: seq<(TaskId, Proc)>, i: nat, exited: seq<TaskId>, late: seq<TaskId>,
                      company: Company, ghost s0: State)
      returns (nowExited: seq<TaskId>, nowLate: seq<TaskId>)
      requires Valid() && WORKER !in launches && i < |copy| && pass == Examining(began, copy[i..], exited, late)
      requires Unshared(company) ==>
                 && Copied(copy, s0) && began == s0.now && (running, tasks) == (s0.running, s0.tasks) && live <= s0.live
                 && Sifted(s0, live, copy[..i], exited, late)
      requires company == Alone ==>
                 Settled(s0, exitCode, St(), Elements(exited)) && Divided(s0, exitCode, copy[..i], exited, late)
      modifies `running, `history, `usedRows, `issued, `live, `launches, `origin, `overwritten, `now, `tasks, `windows
      modifies `trace, `closed, `faulty, `pass
      ensures Valid() && old(trace) <= trace && WORKER !in launches
      ensures pass == Examining(began, copy[i + 1..], nowExited, nowLate)
      ensures Unshared(company) ==>
                && (running, tasks, windows, launches) == old((running, tasks, windows, launches)) && live <= s0.live
                && Sifted(s0, live, copy[..i + 1], nowExited, nowLate)
      ensures company == Alone ==>
                && Settled(s0, exitCode, St(), Elements(nowExited))
                && Divided(s0, exitCode, copy[..i + 1], nowExited, nowLate)
    {
      hide Past, After, Valid, Settled, Divided, Sifted, Recorded, FoundExited, FoundLate, ClientsStayAway, TimedOut, Elements;
      var (id, proc) := copy[i];
      assert copy[i..][1..] == copy[i + 1..];
      Meanwhile(company);
      ghost var s := St();
      var v, pick := ExamineEntry(began, id, proc);
      nowExited := exited + if v == HasExited then [id] else [];
      nowLate := late + if v == Overdue then [id] else [];
      if Unshared(company) { SiftedMore(s0, old(live), copy, i, v, live, exited, late); }
      if company == Alone {
        OneMoreExamined(s0, exitCode, copy, i, s, v, pick, St(), exited, late, nowExited, nowLate);
      }
    }

    /** Looks at every copied entry, outside the lock. */
    method ExamineAll(began: int, copy: seq<(TaskId, Proc)>, company: Company, ghost s0: State)
      returns (exited: seq<TaskId>, late: seq<TaskId>)
      requires Valid() && WORKER !in launches && pass == Examining(began, copy, [], [])
      requires Unshared(company) ==>
                 Copied(copy, s0) && began == s0.now && (running, tasks) == (s0.running, s0.tasks) && live <= s0.live
      requires company == Alone ==> St() == s0.(pass := pass)
      modifies `running, `history, `usedRows, `issued, `live, `launches, `origin, `overwritten, `now, `tasks, `windows
      modifies `trace, `closed, `faulty, `pass
      ensures Valid() && old(trace) <= trace && WORKER !in launches && pass == Examining(began, [], exited, late)
      ensures Unshared(company) ==>
                && (running, tasks, windows, launches) == old((running, tasks, windows, launches)) && live <= s0.live
                && Sifted(s0, live, copy, exited, late)
      ensures company == Alone ==>
                Settled(s0, exitCode, St(), Elements(exited)) && Divided(s0, exitCode, copy, exited, late)
    {
      exited, late := [], [];
      if company == Alone { NothingSettled(s0, exitCode, St()); }
      NothingSifted(s0, live, copy);
      assert copy[0..] == copy && copy[..0] == [];
      hide Past, After, Valid, Settled, Divided, Sifted, ClientsStayAway, Elements, Copied, St;
      for i := 0 to |copy|
        invariant Valid() && old(trace) <= trace && WORKER !in launches
        invariant pass == Examining(began, copy[i..], exited, late)
        invariant Unshared(company) ==>
                    && (running, tasks, windows, launches) == old((running, tasks, windows, launches)) && live <= s0.live
                    && Sifted(s0, live, copy[..i], exited, late)
        invariant company == Alone ==>
                    Settled(s0, exitCode, St(), Elements(exited)) && Divided(s0, exitCode, copy[..i], exited, late)
      {
        exited, late := ExamineOne(began, copy, i, exited, late, company, s0);
      }
      assert copy[..|copy|] == copy && copy[|copy|..] == [];
    }

    /** The rest of what is done about an entry that has been taken from the map: others may act
        first. */
    method EndTaken(id: TaskId, proc: Proc, company: Company) returns (ghost pick: Option<RowId>)
      requires Valid() && WORKER !in launches && pass.Finishing? && pass.task == id && pass.proc == proc
      modifies `running, `history, `usedRows, `issued, `live, `launches, `origin, `overwritten, `now, `tasks, `windows
      modifies `trace, `closed, `faulty, `pass
      ensures Valid() && old(trace) <= trace && WORKER !in launches && pass == Expiring(old(pass).due)
      ensures Unshared(company) ==>
                (running, tasks, windows, launches) == old((running, tasks, windows, launches)) && live <= old(live)
      ensures company == Alone ==>
                && St() == old(St()).(live := live, history := history, closed := closed, faulty := faulty, pass := pass)
                && closed == old(closed) + {proc.handle}
                && live == (if MustKill(id) then old(live) - {proc.handle} else old(live))
                && Recorded(old(history), history, id, Stamp(old(now)), Expired(MustKill(id)), pick)
    {
      hide Past, After, Valid, Recorded, ClientsStayAway;
      Meanwhile(company);
      var kill := MustKill(id);
      pick := FinishEntry(id, proc, kill);
    }

    /** Ends one late entry, unless it has gone in the meantime. */
    method ExpireOne(late: seq<TaskId>, i: nat, company: Company, ghost s0: State, ghost exited: set<TaskId>)
      requires Valid() && WORKER !in launches && i < |late| && pass == Expiring(late[i..])
      requires company == Alone ==> ExpiredUpTo(s0, exitCode, St(), exited, late, i)
      modifies `running, `history, `usedRows, `issued, `live, `launches, `origin, `overwritten, `now, `tasks, `windows
      modifies `trace, `closed, `faulty, `pass
      ensures Valid() && old(trace) <= trace && WORKER !in launches && pass == Expiring(late[i + 1..])
      ensures Unshared(company) ==>
                && (tasks, windows, launches) == old((tasks, windows, launches)) && live <= old(live)
                && running == old(running) - {late[i]}
      ensures company == Alone ==> ExpiredUpTo(s0, exitCode, St(), exited, late, i + 1)
    {
      hide Past, After, Valid, Recorded, ExpiredUpTo, ClientsStayAway, FoundLate, Elements, Ends;
      assert late[i..][1..] == late[i + 1..];
      Meanwhile(company);
      ghost var s := St();
      if company == Alone { NextIsLate(s0, exitCode, s, exited, late, i); }
      var taken := TakeEntry(late[i]);
      if taken.Some? {
        ghost var pick := EndTaken(late[i], taken.value, company);
        if company == Alone { OneMoreExpired(s0, exitCode, s, exited, late, i, pick, St()); }
      }
    }

    method ExpireAll(late: seq<TaskId>, company: Company, ghost s0: State, ghost exited: set<TaskId>)
      requires Valid() && WORKER !in launches && pass == Expiring(late)
      requires company == Alone ==> ExpiredUpTo(s0, exitCode, St(), exited, late, 0)
      modifies `running, `history, `usedRows, `issued, `live, `launches, `origin, `overwritten, `now, `tasks, `windows
      modifies `trace, `closed, `faulty, `pass
      ensures Valid() && old(trace) <= trace && WORKER !in launches && pass == Expiring([])
      ensures Unshared(company) ==>
                && (tasks, windows, launches) == old((tasks, windows, launches)) && live <= old(live)
                && running == old(running) - Elements(late)
      ensures company == Alone ==> ExpiredUpTo(s0, exitCode, St(), exited, late, |late|)
    {
      hide Past, After, Valid, ExpiredUpTo, ClientsStayAway, St;
      for i := 0 to |late|
        invariant Valid() && old(trace) <= trace && WORKER !in launches && pass == Expiring(late[i..])
        invariant Unshared(company) ==>
                    && (tasks, windows, launches) == old((tasks, windows, launches)) && live <= old(live)
                    && running == old(running) - Elements(late[..i])
        invariant company == Alone ==> ExpiredUpTo(s0, exitCode, St(), exited, late, i)
      {
        ExpireOne(late, i, company, s0, exited);
        assert Elements(late[..i + 1]) == Elements(late[..i]) + {late[i]};
      }
      assert late[..|late|] == late;
    }

    /** Reads the clock, then copies the entries under the lock. */
    method TakeCopy(company: Company) returns (began: int, copy: seq<(TaskId, Proc)>)
      requires Ready()
      modifies `running, `history, `usedRows, `issued, `live, `launches, `origin, `overwritten, `now, `tasks, `windows
      modifies `trace, `pass
      ensures Valid() && old(trace) <= trace && WORKER !in launches && pass == Examining(began, copy, [], [])
      ensures began == old(now)
      ensures Unshared(company) ==>
                && (running, tasks, windows, launches) == old((running, tasks, windows, launches)) && live <= old(live)
                && Copied(copy, old(St()))
      ensures company == Alone ==> St() == old(St()).(pass := pass)
    {
      hide Past, After, ClientsStayAway, Copied;
      ghost var s0 := St();
      NobodyLaunching(WORKER);
      hide Valid;
      began := now;
      StartPass();
      Meanwhile(company);
      ghost var s := St();
      copy := CopyEntries(began);
      if Unshared(company) { CopiedLater(copy, s0, s); }
    }

    /** The first three phases: copy the entries under the lock, look at them outside it, erase
        the exited ones under the lock. */
    method Collect(company: Company)
      returns (ghost copy: seq<(TaskId, Proc)>, ghost exited: seq<TaskId>, late: seq<TaskId>)
      requires Ready()
      modifies `running, `history, `usedRows, `issued, `live, `launches, `origin, `overwritten, `now, `tasks, `windows
      modifies `trace, `closed, `faulty, `pass
      ensures Valid() && old(trace) <= trace && WORKER !in launches && pass == Expiring(late)
      ensures Unshared(company) ==>
                && (tasks, windows, launches) == old((tasks, windows, launches)) && live <= old(live)
                && Copied(copy, old(St())) && Sifted(old(St()), live, copy, exited, late)
                && running == old(running) - Elements(exited)
      ensures company == Alone ==>
                && Divided(old(St()), exitCode, copy, exited, late)
                && ExpiredUpTo(old(St()), exitCode, St(), Elements(exited), late, 0)
    {
      hide Past, After, Settled, Divided, ClientsStayAway, ExpiredUpTo, Copied, Elements, Sifted;
      ghost var s0 := St();
      hide Valid;
      var began, entries := TakeCopy(company);
      copy := entries;
      var found;
      found, late := ExamineAll(began, entries, company, s0);
      exited := found;
      ghost var alive := live;
      Meanwhile(company);
      ghost var s := St();
      EraseEntries(found);
      if Unshared(company) { SiftedLater(s0, alive, live, copy, exited, late); }
      if company == Alone { ReadyToExpire(s0, exitCode, copy, exited, late, s, St()); }
    }

    /** All four phases; the last one ends the late entries. */
    method RunPass(company: Company)
      requires Ready()
      modifies `running, `history, `usedRows, `issued, `live, `launches, `origin, `overwritten, `now, `tasks, `windows
      modifies `trace, `closed, `faulty, `pass
      ensures Ready() && old(trace) <= trace
      ensures Unshared(company) ==>
                && (tasks, windows, launches) == old((tasks, windows, launches)) && live <= old(live)
                && Swept(old(St()), St())
      ensures company == Alone ==>
                && Settled(old(St()), exitCode, St(), Ended(old(St()), exitCode))
                && St().running == old(St()).running - Ended(old(St()), exitCode)
                && NoneLeft(St()) && now == old(now)
    {
      hide Past, After, Settled, Divided, ClientsStayAway, ExpiredUpTo, HandlesOk, Ended, NoneLeft, Copied, Elements;
      hide TrackedHandles, Lost, Waiting, Killing, AtMostOneEach, Sifted, Swept;
      ghost var s0 := St();
      StateIsSafe();
      hide Valid;
      ghost var copy, exited;
      var late;
      copy, exited, late := Collect(company);
      ghost var alive := live;
      ExpireAll(late, company, s0, Elements(exited));
      ghost var e := St();
      FinishPass();
      if Unshared(company) {
        SiftedLater(s0, alive, live, copy, exited, late);
        AllSwept(s0, St(), copy, exited, late);
      }
      if company == Alone {
        AllExpired(s0, exitCode, copy, exited, late, e, St());
        SettledFrame(s0, exitCode, St(), Ended(s0, exitCode));
      }
    }

    /** The checking pass. Whatever else goes on meanwhile, no handle is used after it was
        closed. If no client launches or edits, then however processes exit and the clock moves
        during the pass, entries are only removed: all that had exited or were late when it
        began, and besides these only such as have exited since. If nothing happens at all, the
        pass also writes exactly the rows of the entries it ends. */
    method CheckTimeouts(company: Company)
      requires Ready()
      modifies `running, `history, `usedRows, `issued, `live, `launches, `origin, `overwritten, `now, `tasks, `windows
      modifies `trace, `closed, `faulty, `pass
      ensures Ready() && old(trace) <= trace
      ensures !faulty && TrackedHandles(St()) <= issued - closed
      ensures Unshared(company) ==>
                && (tasks, windows, launches) == old((tasks, windows, launches)) && live <= old(live)
                && Swept(old(St()), St())
      ensures company == Alone ==>
                && Settled(old(St()), exitCode, St(), Ended(old(St()), exitCode))
                && running == old(running) - Ended(old(St()), exitCode) && now == old(now)
      ensures company == Alone ==> forall id | id in running && id in tasks ::
                running[id].handle in live && !TimedOut(tasks[id], now, running[id])
    {
      hide Past, After, Settled, ClientsStayAway, HandlesOk, Ended, TimedOut, TrackedHandles, Lost, Waiting, Killing;
      hide AtMostOneEach, Swept;
      RunPass(company);
      StateIsSafe();
    }

    /** A launch after a check under the lock: others may act between the two. */
    method LaunchAfterCheck(id: TaskId, company: Company) returns (inserted: bool)
      requires Ready() && MayLaunch(id)
      modifies `running, `history, `usedRows, `issued, `live, `launches, `origin, `overwritten, `now, `tasks, `windows
      modifies `trace, `attempts
      ensures Ready() && old(trace) <= trace
      ensures attempts == if inserted then old(attempts) + [id] else old(attempts)
      ensures Unshared(company) ==>
                && (tasks, windows) == old((tasks, windows)) && (inserted <==> id in old(tasks))
                && GrownBy(old(running).Keys, running.Keys, id, true)
      ensures company == Alone ==> now == old(now)
    {
      hide Past, After, Valid, St, ClientsStayAway, Ready;
      Pause(company);
      ghost var row, made;
      inserted, row, made := LaunchTask(id, company);
    }

    /** One queue of the copy. The entry popped is an entry of the copy; the queue itself keeps
        it. */
    method ProcessQueue(id: TaskId, queue: seq<int>, company: Company)
      returns (ok: bool, rest: seq<int>, ghost tried: bool)
      requires Ready() && Accounted() && queue != [] && id in pending
      modifies `running, `history, `usedRows, `issued, `live, `launches, `origin, `overwritten, `now, `tasks, `windows
      modifies `trace, `attempts
      ensures Ready() && old(trace) <= trace && Accounted()
      ensures attempts == old(attempts) + (if tried then [id] else []) && (tried ==> ok)
      ensures Unshared(company) ==>
                && ok && (tasks, windows) == old((tasks, windows))
                && (tried <==> id in old(tasks) && id !in old(running))
                && (forall x | x != id :: x in running <==> x in old(running))
      ensures company == Alone ==> now == old(now)
    {
      hide Past, After, Valid, St, ClientsStayAway, Ready;
      ok, rest, tried := true, queue, false;
      Pause(company);
      if id in running { return; }
      QueuedIsEnabled(id);
      rest := queue[1..];
      Pause(company);
      if id in tasks {
        ok := LaunchAfterCheck(id, company);
        tried := ok;
        if !ok { return; }
      }
      Pause(company);
      // An empty queue would be erased here. It never is empty: nothing was popped from it.
      assert QueueOf(pending, id) != [];
    }

    /** One pass over a copy of the queues. In any company no queue leads to more than one
        launch. If no client interferes, exactly the queued tasks that still exist and are not
        running are launched, whatever exits and however the clock moves meanwhile. */
    method ProcessPendingQueue(company: Company) returns (ok: bool, ghost picked: seq<TaskId>)
      requires Ready() && Accounted()
      modifies `running, `history, `usedRows, `issued, `live, `launches, `origin, `overwritten, `now, `tasks, `windows
      modifies `trace, `attempts
      ensures Ready() && old(trace) <= trace && Accounted()
      ensures attempts == old(attempts) + picked && NoDuplicates(picked) && forall id | id in picked :: id in pending
      ensures Unshared(company) ==>
                && ok && (tasks, windows) == old((tasks, windows))
                && (forall id :: id in picked <==> id in pending && id in old(tasks) && id !in old(running))
                && (forall id | id !in pending :: id in running <==> id in old(running))
      ensures company == Alone ==> now == old(now)
    {
      hide Past, After, Valid, St, ClientsStayAway, Ready, Accounted, Relaunched, NoDuplicates;
      var copy := pending;
      var order := Enumerate(copy.Keys);
      ghost var startable := old(tasks).Keys - old(running).Keys;
      picked, ok := [], true;
      assert forall i | 0 <= i < |order| :: order[i] in Elements(order);
      QueuesAreNotEmpty();
      NothingRelaunched(startable, old(running).Keys);
      for i := 0 to |order|
        invariant Ready() && Accounted() && old(trace) <= trace && ok
        invariant copy.Keys == pending.Keys && forall j | i <= j < |order| :: copy[order[j]] != []
        invariant attempts == old(attempts) + picked && NoDuplicates(picked) && forall id | id in picked :: id in order[..i]
        invariant Unshared(company) ==>
                    && (tasks, windows) == old((tasks, windows))
                    && Relaunched(startable, old(running).Keys, order[..i], picked, running.Keys)
        invariant company == Alone ==> now == old(now)
      {
        var id := order[i];
        assert id !in order[..i] && order[..i + 1] == order[..i] + [id];
        ghost var tracked := running.Keys;
        var rest;
        ghost var tried;
        ok, rest, tried := ProcessQueue(id, copy[id], company);
        if !ok { return; }
        copy := copy[id := rest];
        ghost var one := if tried then [id] else [];
        if Unshared(company) {
          RelaunchedMore(startable, old(running).Keys, order[..i], picked, tracked, id, running.Keys);
        }
        PickedMore(old(attempts), order[..i], picked, id, one);
        picked := picked + one;
      }
      assert order[..|order|] == order;
      assert forall id :: id in order <==> id in Elements(order);
      if Unshared(company) { AllRelaunched(startable, old(running).Keys, order, picked, running.Keys); }
    }

    /** Goes through the windows of the task, as they are when they are read, and remembers the
        minute of an exact time. */
    method DecideDue(id: TaskId, row: Task, instant: int, company: Company)
      returns (d: Decision, ghost read: seq<Window>)
      requires Ready()
      modifies `running, `history, `usedRows, `issued, `live, `launches, `origin, `overwritten, `now, `tasks, `windows
      modifies `trace, `lastRun
      ensures Ready() && old(trace) <= trace
      ensures d == DecisionFor(row, read, local(instant), LastOf(old(lastRun), id))
      ensures LastOf(lastRun, id) == if d.Launch? then d.last else LastOf(old(lastRun), id)
      ensures forall x | x != id :: LastOf(lastRun, x) == LastOf(old(lastRun), x)
      ensures Unshared(company) ==>
                && (running, tasks, windows, launches) == old((running, tasks, windows, launches))
                && read == WindowsOf(windows, id)
      ensures company == Alone ==> now == old(now)
    {
      hide Past, After, Valid, St, Decide, InWindow, ClientsStayAway, Ready;
      read := WindowsOf(windows, id);
      if !row.enabled { return Skip, read; }
      Pause(company);
      var ws := WindowsOf(windows, id);
      read := ws;
      d := DecideTick(ws, local(instant), LastOf(lastRun, id));
      DecideMeaning(ws, local(instant), LastOf(lastRun, id));
      if d.Launch? && d.last.Some? { lastRun := lastRun[id := d.last.value]; }
    }

    /** Under the lock: a task that is tracked is skipped or put off, unless its overlap action is
        to start another process. */
    method CheckOverlap(id: TaskId, row: Task, instant: int) returns (action: Action)
      requires Accounted()
      requires clientless ==> id in start.tasks && start.tasks[id] == row && row.enabled
      modifies `pending, `deferred
      ensures Accounted() && old(deferred) <= deferred
      ensures action == if id in running && row.overlap.WaitNext? then Nothing
                        else if id in running && row.overlap.WaitComplete? then Defer else Attempt
      ensures QueueOf(pending, id) == QueueOf(old(pending), id) +
                (if id in running && row.overlap.WaitComplete? then [instant] else [])
      ensures forall x | x != id :: QueueOf(pending, x) == QueueOf(old(pending), x)
    {
      hide Accounted, QueueOf;
      if id in running {
        if row.overlap.WaitNext? { return Nothing; }
        if row.overlap.WaitComplete? {
          PutOff(id, instant);
          return Defer;
        }
      }
      action := Attempt;
    }

    /** What is done about a task that is due: skipped, put off or launched, by whether it is
        tracked at the moment of the check. */
    method Dispatch(id: TaskId, row: Task, instant: int, company: Company)
      returns (end: TickEnd, ghost tracked: bool, ghost known: bool)
      requires Ready() && Accounted()
      requires row.enabled && (clientless ==> id in tasks && row == tasks[id])
      modifies `running, `history, `usedRows, `issued, `live, `launches, `origin, `overwritten, `now, `tasks, `windows
      modifies `trace, `attempts, `pending, `deferred
      ensures Ready() && old(trace) <= trace && Accounted() && old(deferred) <= deferred
      ensures forall x | x != id :: QueueOf(pending, x) == QueueOf(old(pending), x)
      ensures var waits := tracked && (row.overlap.WaitNext? || row.overlap.WaitComplete?);
              && end == (if !waits && !known then Threw else Done)
              && attempts == old(attempts) + (if !waits && known then [id] else [])
              && QueueOf(pending, id) == QueueOf(old(pending), id) +
                   (if tracked && row.overlap.WaitComplete? then [instant] else [])
              && (Unshared(company) ==>
                   && (tasks, windows) == old((tasks, windows))
                   && (tracked <==> id in old(running)) && (known <==> id in old(tasks))
                   && GrownBy(old(running).Keys, running.Keys, id, !waits))
      ensures company == Alone ==> now == old(now)
    {
      hide Past, After, Valid, St, QueueOf, Accounted, Ready, ClientsStayAway, MayLaunch, GrownBy;
      Pause(company);
      tracked, known := id in running, id in tasks;
      NoneGrown(running.Keys, id);
      StillTheSameTasks();
      var action := CheckOverlap(id, row, instant);
      if action != Attempt { return Done, tracked, known; }
      MayBeDispatched(id, row);
      var ok := LaunchAfterCheck(id, company);
      known := ok;
      end := if ok then Done else Threw;
    }

    lemma MayBeDispatched(id: TaskId, row: Task)
      requires row.enabled && (clientless ==> id in tasks && row == tasks[id]) && (id in running ==> !Waits(row))
      ensures MayLaunch(id)
    {}

    method PutOff(id: TaskId, instant: int)
      requires Accounted()
      requires clientless ==> id in start.tasks && start.tasks[id].enabled && start.tasks[id].overlap.WaitComplete?
      modifies `pending, `deferred
      ensures Accounted() && deferred == old(deferred) + [id]
      ensures QueueOf(pending, id) == QueueOf(old(pending), id) + [instant]
      ensures forall x | x != id :: QueueOf(pending, x) == QueueOf(old(pending), x)
    {
      pending := pending[id := QueueOf(pending, id) + [instant]];
      deferred := deferred + [id];
    }

    /** One task of the list. The row is the one read with the list; `met` is what the worker
        came across on the way: it determines what is done in any company. */
    method ConsiderTask(id: TaskId, row: Task, instant: int, company: Company) returns (end: TickEnd, ghost met: Met)
      requires Ready() && Accounted()
      requires clientless ==> id in tasks && row == tasks[id]
      modifies `running, `history, `usedRows, `issued, `live, `launches, `origin, `overwritten, `now, `tasks, `windows
      modifies `trace, `attempts, `pending, `lastRun, `deferred
      ensures Ready() && old(trace) <= trace && Accounted() && old(deferred) <= deferred
      ensures forall x | x != id ::
                QueueOf(pending, x) == QueueOf(old(pending), x) && LastOf(lastRun, x) == LastOf(old(lastRun), x)
      ensures var d := DecisionFor(row, met.windows, local(instant), LastOf(old(lastRun), id));
              var waits := met.tracked && (row.overlap.WaitNext? || row.overlap.WaitComplete?);
              && end == (if d.Crash? then Crashed else if d.Launch? && !waits && !met.known then Threw else Done)
              && attempts == old(attempts) + (if d.Launch? && !waits && met.known then [id] else [])
              && QueueOf(pending, id) == QueueOf(old(pending), id) +
                   (if d.Launch? && met.tracked && row.overlap.WaitComplete? then [instant] else [])
              && LastOf(lastRun, id) == if d.Launch? then d.last else LastOf(old(lastRun), id)
      ensures Unshared(company) && id in old(tasks) && row == old(tasks)[id] ==>
                && met == Met(WindowsOf(old(windows), id), id in old(running), true)
                && (tasks, windows) == old((tasks, windows))
                && (end == Done ==> OneMore(local(instant), instant, id, old(Seen()), old(pending), Seen(), pending))
      ensures company == Alone ==> now == old(now)
    {
      hide Past, After, Valid, St, DecisionFor, ClientsStayAway, Accounted, LastOf, QueueOf, Ready, OneMore, GrownBy;
      ghost var w, q := Seen(), pending;
      var d;
      ghost var read;
      met := Met([], id in running, true);
      d, read := DecideDue(id, row, instant, company);
      met := met.(windows := read);
      if d == Crash { return Crashed, met; }
      if d == Skip {
        NoneGrown(running.Keys, id);
        if Unshared(company) && id in old(tasks) && row == old(tasks)[id] {
          OneMoreByMet(local(instant), instant, id, w, q, met, Seen(), pending);
        }
        return Done, met;
      }
      OnlyEnabledAreDue(row, read, local(instant), LastOf(old(lastRun), id));
      ghost var tracked, known;
      end, tracked, known := Dispatch(id, row, instant, company);
      met := Met(read, tracked, known);
      if Unshared(company) && id in old(tasks) && row == old(tasks)[id] {
        OneMoreByMet(local(instant), instant, id, w, q, met, Seen(), pending);
      }
    }

    /** What the decisions of a tick depend on. */
    function Seen(): View
      reads `tasks, `windows, `running, `lastRun
    {
      View(tasks, windows, running.Keys, lastRun)
    }

    /** The first part of a tick: every task of the list in turn, judged by the clock as read
        after the list. In any company no task is launched twice. If no client interferes, the
        tasks do not influence each other: exactly the due ones that need not wait are
        launched; exactly the due ones that wait for a run to complete are queued. */
    method LaunchDue(company: Company) returns (end: TickEnd, ghost instant: int, ghost picked: seq<TaskId>)
      requires Ready() && Accounted()
      modifies `running, `history, `usedRows, `issued, `live, `launches, `origin, `overwritten, `now, `tasks, `windows
      modifies `trace, `attempts, `pending, `lastRun, `deferred
      ensures Ready() && old(trace) <= trace && Accounted() && old(deferred) <= deferred
      ensures attempts == old(attempts) + picked && NoDuplicates(picked) && forall id | id in picked :: id in old(tasks)
      ensures Unshared(company) ==>
                var v, t := old(Seen()), local(instant);
                && (tasks, windows) == old((tasks, windows))
                && (end == Done <==> forall id :: Planned(v, t, id) != Abort)
                && (end == Done ==>
                     && (forall id :: id in picked <==> Planned(v, t, id) == Attempt)
                     && v.tracked <= running.Keys <= v.tracked + Elements(picked)
                     && (forall id :: QueueOf(pending, id) == NextQueue(v, t, id, QueueOf(old(pending), id), instant))
                     && (forall id :: LastOf(lastRun, id) == NextLast(v, t, id)))
      ensures company == Alone ==> now == old(now) && instant == old(now)
    {
      hide Past, After, Valid, St, ClientsStayAway, Accounted, SoFar, OneMore, Planned, NoDuplicates, Ready, QueueOf, LastOf, NextQueue, NextLast, WindowsOf, DecisionFor, ActionFor;
      var rows := tasks;
      Pause(company);
      var time := now;
      instant := time;
      var order := Enumerate(rows.Keys);
      ghost var v, t, queues := old(Seen()), local(time), pending;
      picked, end := [], Done;
      assert forall i | 0 <= i < |order| :: order[i] in Elements(order);
      NothingSoFar(v, t, time, pending);
      for i := 0 to |order|
        invariant Ready() && Accounted() && old(trace) <= trace && end == Done
        invariant old(deferred) <= deferred
        invariant attempts == old(attempts) + picked && NoDuplicates(picked) && forall id | id in picked :: id in order[..i]
        invariant Unshared(company) ==>
                    && (tasks, windows) == old((tasks, windows))
                    && SoFar(v, t, time, queues, order[..i], picked, Seen(), pending)
        invariant company == Alone ==> now == old(now)
      {
        var id := order[i];
        assert id in rows && id !in order[..i] && order[..i + 1] == order[..i] + [id];
        ghost var w, q := Seen(), pending;
        ghost var met;
        end, met := ConsiderTask(id, rows[id], time, company);
        if Unshared(company) { PlannedByMet(w, t, id, met); }
        if end != Done {
          if Unshared(company) { NoAbortSoFar(v, t, time, queues, order[..i], picked, w, q, id); }
          return;
        }
        ghost var one := attempts[|old(attempts) + picked|..];
        if Unshared(company) { SoFarMore(v, t, time, queues, order[..i], picked, w, q, id, Seen(), pending); }
        PickedMore(old(attempts), order[..i], picked, id, one);
        picked := picked + one;
      }
      assert order[..|order|] == order;
      assert forall id :: id in order <==> id in Elements(order);
      if Unshared(company) { AllGoneThrough(v, t, time, queues, order, picked, Seen(), pending); }
    }

    /** One tick. Whatever else goes on, handles stay safe and no task is launched more than
        twice, once because it is due and once from its queue; without clients and with waiting
        tasks no handle is lost, and if timeouts kill, at most one process per task is alive. If
        no client interferes, the tick goes through unless a window of a due task faults. It then launches
        the tasks planned for an attempt; after these, the queued tasks that exist and are not
        running by then, however long ago they were queued, a task just launched in vain among
        them; and then ends what has exited or is late. `checked` is the state in which it
        begins to do so. */
    method Tick(company: Company)
      returns (end: TickEnd, ghost instant: int, ghost picked: seq<TaskId>, ghost requeued: seq<TaskId>,
               ghost tracked: set<TaskId>, ghost checked: State)
      requires Ready() && Accounted()
      modifies `running, `history, `usedRows, `issued, `live, `launches, `origin, `overwritten, `now, `tasks, `windows
      modifies `trace, `attempts, `pending, `lastRun, `deferred, `closed, `faulty, `pass
      ensures Ready() && Accounted() && old(trace) <= trace && old(deferred) <= deferred
      ensures HandlesOk(St()) && !faulty && TrackedHandles(St()) <= issued - closed && |Lost(St())| == overwritten
      ensures attempts == old(attempts) + picked + requeued && NoDuplicates(picked) && NoDuplicates(requeued)
      ensures clientless && Waiting(tasks) ==> issued == closed + TrackedHandles(St())
      ensures clientless && Waiting(tasks) && Killing(tasks) ==> AtMostOneEach(St())
      ensures Unshared(company) ==>
                var v, t := old(Seen()), local(instant);
                && (tasks, windows) == old((tasks, windows))
                && (end == Done <==> forall id :: Planned(v, t, id) != Abort)
                && (end == Done ==>
                     && (forall id :: id in picked <==> Planned(v, t, id) == Attempt)
                     && ByOverlap(v, t, instant, picked, old(pending), pending)
                     && v.tracked <= tracked <= v.tracked + Elements(picked)
                     && (forall id :: id in requeued <==> QueueOf(pending, id) != [] && id in v.tasks && id !in tracked)
                     && (forall id :: QueueOf(pending, id) == NextQueue(v, t, id, QueueOf(old(pending), id), instant))
                     && (forall id :: LastOf(lastRun, id) == NextLast(v, t, id))
                     && Swept(checked, St()))
      ensures company == Alone && end == Done ==>
                && instant == now == old(now)
                && forall id | id in running && id in tasks ::
                     running[id].handle in live && !TimedOut(tasks[id], now, running[id])
    {
      hide Past, After, Valid, ClientsStayAway, HandlesOk, TrackedHandles, Lost, Waiting, Killing, AtMostOneEach, Swept;
      hide Accounted, Settled, Planned, Decided, QueueOf, LastOf, NextQueue, NextLast, TimedOut, Ended, St, Ready, ByOverlap;
      requeued := [];
      end, instant, picked := LaunchDue(company);
      if Unshared(company) && end == Done { AllByOverlap(old(Seen()), local(instant), instant, picked, old(pending), pending); }
      tracked, checked := running.Keys, St();
      if end == Done {
        DeferredAreQueued();
        var ok;
        ok, requeued := ProcessPendingQueue(company);
        checked := St();
        if ok { CheckTimeouts(company); } else { end := Threw; }
      }
      RestIsSafe();
    }
  }
}
