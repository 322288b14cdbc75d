/** What a tick decides about each task: whether it is due, and what to do if it still runs. */
module Deciding {
  import opened Common
  import opened History
  import opened Engine
  import opened TimeWindows
  import opened Schedule
  import opened Queueing

  /** How a tick ends: to its end; with an exception, which it catches; with the process. */
  datatype TickEnd = Done | Threw | Crashed

  datatype Action = Nothing | Defer | Attempt | Abort

  function DecisionFor(task: Task, ws: seq<Window>, t: Moment, last: Option<int>): Decision {
    if task.enabled then Decide(ws, t, last) else Skip
  }

  lemma OnlyEnabledAreDue(task: Task, ws: seq<Window>, t: Moment, last: Option<int>)
    ensures DecisionFor(task, ws, t, last) != Skip ==> task.enabled
  {}

  /** Overlap is looked at only for tasks that are due. */
  function ActionFor(task: Task, tracked: bool, d: Decision): Action {
    match d
    case Crash => Abort
    case Skip => Nothing
    case Launch(_) =>
      if tracked && task.overlap.WaitNext? then Nothing
      else if tracked && task.overlap.WaitComplete? then Defer
      else Attempt
  }

  function LastOf(lastRun: map<TaskId, int>, id: TaskId): Option<int> {
    if id in lastRun then Some(lastRun[id]) else None
  }

  function QueueOf(pending: map<TaskId, seq<int>>, id: TaskId): seq<int> {
    if id in pending then pending[id] else []
  }

  function WindowsOf(windows: map<TaskId, seq<Window>>, id: TaskId): seq<Window> {
    if id in windows then windows[id] else []
  }

  /** What the decisions of a tick depend on. */
  datatype View = View(tasks: map<TaskId, Task>, windows: map<TaskId, seq<Window>>, tracked: set<TaskId>,
                       lastRun: map<TaskId, int>)

  function Decided(v: View, t: Moment, id: TaskId): Decision {
    if id in v.tasks then DecisionFor(v.tasks[id], WindowsOf(v.windows, id), t, LastOf(v.lastRun, id)) else Skip
  }

  function Planned(v: View, t: Moment, id: TaskId): Action {
    if id in v.tasks then ActionFor(v.tasks[id], id in v.tracked, Decided(v, t, id)) else Nothing
  }

  /** What the worker comes across while it considers one task: the windows of the task when it
      reads them, whether the task is tracked when it checks, and whether it still exists when it
      is launched. */
  datatype Met = Met(windows: seq<Window>, tracked: bool, known: bool)

  lemma PlannedByMet(v: View, t: Moment, id: TaskId, met: Met)
    requires id in v.tasks && met == Met(WindowsOf(v.windows, id), id in v.tracked, true)
    ensures var d := DecisionFor(v.tasks[id], met.windows, t, LastOf(v.lastRun, id));
            var waits := met.tracked && (v.tasks[id].overlap.WaitNext? || v.tasks[id].overlap.WaitComplete?);
            && Decided(v, t, id) == d && (Planned(v, t, id) == Abort <==> d.Crash?)
            && (Planned(v, t, id) == Attempt <==> d.Launch? && !waits)
  {}

  lemma SameView(v: View, w: View, t: Moment, id: TaskId)
    requires v.tasks == w.tasks && v.windows == w.windows && (id in v.tracked <==> id in w.tracked)
    requires LastOf(v.lastRun, id) == LastOf(w.lastRun, id)
    ensures Decided(v, t, id) == Decided(w, t, id) && Planned(v, t, id) == Planned(w, t, id)
  {}

  function NextQueue(v: View, t: Moment, id: TaskId, queue: seq<int>, instant: int): seq<int> {
    queue + if Planned(v, t, id) == Defer then [instant] else []
  }

  function NextLast(v: View, t: Moment, id: TaskId): Option<int> {
    if Decided(v, t, id).Launch? then Decided(v, t, id).last else LastOf(v.lastRun, id)
  }

  /** The tasks `seen` have been gone through and `picked` of them attempted; the others are as
      they were. */
  ghost predicate SoFar(v: View, t: Moment, instant: int, queues: map<TaskId, seq<int>>, seen: seq<TaskId>,
                        picked: seq<TaskId>, now: View, pending: map<TaskId, seq<int>>) {
    && now.tasks == v.tasks && now.windows == v.windows
    && (forall id | id in seen :: Planned(v, t, id) != Abort)
    && NoDuplicates(picked) && (forall id :: id in picked <==> id in seen && Planned(v, t, id) == Attempt)
    && v.tracked <= now.tracked <= v.tracked + Elements(picked)
    && (forall id :: QueueOf(pending, id) ==
          if id in seen then NextQueue(v, t, id, QueueOf(queues, id), instant) else QueueOf(queues, id))
    && (forall id :: LastOf(now.lastRun, id) == if id in seen then NextLast(v, t, id) else LastOf(v.lastRun, id))
  }

  /** Nothing is tracked less, and nothing more than the task, if it was attempted. */
  predicate GrownBy(before: set<TaskId>, after: set<TaskId>, id: TaskId, attempted: bool) {
    before <= after <= before + if attempted then {id} else {}
  }

  lemma NoneGrown(tracked: set<TaskId>, id: TaskId)
    ensures GrownBy(tracked, tracked, id, false)
  {}

  /** What one more task adds, said about the state before it. */
  ghost predicate OneMore(t: Moment, instant: int, id: TaskId, before: View, queues: map<TaskId, seq<int>>,
                          now: View, pending: map<TaskId, seq<int>>) {
    && now.tasks == before.tasks && now.windows == before.windows
    && QueueOf(pending, id) == NextQueue(before, t, id, QueueOf(queues, id), instant)
    && LastOf(now.lastRun, id) == NextLast(before, t, id)
    && (forall x | x != id :: QueueOf(pending, x) == QueueOf(queues, x) && LastOf(now.lastRun, x) == LastOf(before.lastRun, x))
    && GrownBy(before.tracked, now.tracked, id, Planned(before, t, id) == Attempt)
  }

  /** The task exists, is enabled, and one of its windows launches it. */
  predicate Ripe(v: View, t: Moment, id: TaskId) {
    id in v.tasks && v.tasks[id].enabled && Decide(WindowsOf(v.windows, id), t, LastOf(v.lastRun, id)).Launch?
  }

  /** What is planned for a task, by its overlap action. */
  lemma PlannedByOverlap(v: View, t: Moment, id: TaskId)
    requires Planned(v, t, id) != Abort
    ensures if !Ripe(v, t, id) then Planned(v, t, id) == Nothing
            else if id !in v.tracked then Planned(v, t, id) == Attempt
            else match v.tasks[id].overlap
              case WaitNext => Planned(v, t, id) == Nothing
              case WaitComplete => Planned(v, t, id) == Defer
              case StartAnother => Planned(v, t, id) == Attempt
              case OtherOverlap => Planned(v, t, id) == Attempt
  {}

  /** Of the tasks that are due, those that are not tracked or do not wait are picked, and exactly
      those that are tracked and wait for the run to complete are put off; all others stay as they
      are. */
  ghost predicate ByOverlap(v: View, t: Moment, instant: int, picked: seq<TaskId>, queues: map<TaskId, seq<int>>,
                            pending: map<TaskId, seq<int>>) {
    && (forall id | Ripe(v, t, id) ::
          id in picked <==> id !in v.tracked || !(v.tasks[id].overlap.WaitNext? || v.tasks[id].overlap.WaitComplete?))
    && (forall id | Ripe(v, t, id) ::
          QueueOf(pending, id) == QueueOf(queues, id) +
            if id in v.tracked && v.tasks[id].overlap.WaitComplete? then [instant] else [])
    && (forall id | !Ripe(v, t, id) :: id !in picked && QueueOf(pending, id) == QueueOf(queues, id))
  }

  lemma AllByOverlap(v: View, t: Moment, instant: int, picked: seq<TaskId>, queues: map<TaskId, seq<int>>,
                     pending: map<TaskId, seq<int>>)
    requires forall id :: Planned(v, t, id) != Abort && (id in picked <==> Planned(v, t, id) == Attempt)
    requires forall id :: QueueOf(pending, id) == NextQueue(v, t, id, QueueOf(queues, id), instant)
    ensures ByOverlap(v, t, instant, picked, queues, pending)
  {
    hide QueueOf, Decide;
    forall id
      ensures Ripe(v, t, id) ==>
        (id in picked <==> id !in v.tracked || !(v.tasks[id].overlap.WaitNext? || v.tasks[id].overlap.WaitComplete?))
      ensures Ripe(v, t, id) ==>
        QueueOf(pending, id) == QueueOf(queues, id) +
          if id in v.tracked && v.tasks[id].overlap.WaitComplete? then [instant] else []
      ensures !Ripe(v, t, id) ==> id !in picked && QueueOf(pending, id) == QueueOf(queues, id)
    {
      PlannedByOverlap(v, t, id);
    }
  }

  /** One turn of the loop, said by what the worker met. */
  lemma OneMoreByMet(t: Moment, instant: int, id: TaskId, before: View, queues: map<TaskId, seq<int>>, met: Met,
                     now: View, pending: map<TaskId, seq<int>>)
    requires id in before.tasks && met == Met(WindowsOf(before.windows, id), id in before.tracked, true)
    requires now.tasks == before.tasks && now.windows == before.windows
    requires var d := DecisionFor(before.tasks[id], met.windows, t, LastOf(before.lastRun, id));
             var o := before.tasks[id].overlap;
             && QueueOf(pending, id) == QueueOf(queues, id) +
                  (if d.Launch? && met.tracked && o.WaitComplete? then [instant] else [])
             && LastOf(now.lastRun, id) == (if d.Launch? then d.last else LastOf(before.lastRun, id))
             && GrownBy(before.tracked, now.tracked, id, d.Launch? && !(met.tracked && (o.WaitNext? || o.WaitComplete?)))
    requires forall x | x != id :: QueueOf(pending, x) == QueueOf(queues, x) && LastOf(now.lastRun, x) == LastOf(before.lastRun, x)
    ensures OneMore(t, instant, id, before, queues, now, pending)
  {
    hide QueueOf, LastOf, DecisionFor;
  }

  lemma PickedMore(before: seq<TaskId>, seen: seq<TaskId>, picked: seq<TaskId>, id: TaskId, one: seq<TaskId>)
    requires NoDuplicates(picked) && (forall x | x in picked :: x in seen) && id !in seen && (one == [] || one == [id])
    ensures NoDuplicates(picked + one) && forall x | x in picked + one :: x in seen + [id]
    ensures before + picked + one == before + (picked + one)
  {}

  lemma SoFarMore(v: View, t: Moment, instant: int, queues: map<TaskId, seq<int>>, seen: seq<TaskId>,
                  picked: seq<TaskId>, now: View, pending: map<TaskId, seq<int>>,
                  id: TaskId, now': View, pending': map<TaskId, seq<int>>)
    requires SoFar(v, t, instant, queues, seen, picked, now, pending) && id !in seen
    requires OneMore(t, instant, id, now, pending, now', pending') && Planned(now, t, id) != Abort
    ensures Planned(now, t, id) == Planned(v, t, id)
    ensures SoFar(v, t, instant, queues, seen + [id],
              picked + if Planned(v, t, id) == Attempt then [id] else [], now', pending')
  {
    hide Planned, Decided, QueueOf, LastOf;
    SameView(now, v, t, id);
  }

  lemma NothingSoFar(v: View, t: Moment, instant: int, pending: map<TaskId, seq<int>>)
    ensures SoFar(v, t, instant, pending, [], [], v, pending)
  {}

  lemma NoAbortSoFar(v: View, t: Moment, instant: int, queues: map<TaskId, seq<int>>, seen: seq<TaskId>,
                     picked: seq<TaskId>, now: View, pending: map<TaskId, seq<int>>, id: TaskId)
    requires SoFar(v, t, instant, queues, seen, picked, now, pending) && id !in seen
    ensures Planned(now, t, id) == Planned(v, t, id)
  {
    hide Planned, Decided, QueueOf, LastOf;
    SameView(now, v, t, id);
  }

  lemma AllGoneThrough(v: View, t: Moment, instant: int, queues: map<TaskId, seq<int>>, seen: seq<TaskId>,
                       picked: seq<TaskId>, now: View, pending: map<TaskId, seq<int>>)
    requires SoFar(v, t, instant, queues, seen, picked, now, pending)
    requires forall id :: id in seen <==> id in v.tasks
    ensures NoDuplicates(picked)
    ensures forall id :: Planned(v, t, id) != Abort && (id in picked <==> Planned(v, t, id) == Attempt)
    ensures v.tracked <= now.tracked <= v.tracked + Elements(picked)
    ensures forall id :: QueueOf(pending, id) == NextQueue(v, t, id, QueueOf(queues, id), instant)
    ensures forall id :: LastOf(now.lastRun, id) == NextLast(v, t, id)
  {
    assert forall id | id !in v.tasks :: Planned(v, t, id) == Nothing && !Decided(v, t, id).Launch?;
    hide ActionFor, DecisionFor, QueueOf, LastOf;
  }

  // ---- going through the queues ----

  /** Of the tasks `seen`, `picked` are the ones that could be launched; the others are tracked
      or not as before. */
  ghost predicate Relaunched(startable: set<TaskId>, before: set<TaskId>, seen: seq<TaskId>, picked: seq<TaskId>,
                             tracked: set<TaskId>) {
    && NoDuplicates(picked) && (forall id :: id in picked <==> id in seen && id in startable)
    && (forall id | id !in seen :: id in tracked <==> id in before)
  }

  lemma NothingRelaunched(startable: set<TaskId>, before: set<TaskId>)
    ensures Relaunched(startable, before, [], [], before)
  {}

  lemma RelaunchedMore(startable: set<TaskId>, before: set<TaskId>, seen: seq<TaskId>, picked: seq<TaskId>,
                       tracked: set<TaskId>, id: TaskId, tracked': set<TaskId>)
    requires Relaunched(startable, before, seen, picked, tracked) && id !in seen
    requires forall x | x != id :: x in tracked' <==> x in tracked
    ensures Relaunched(startable, before, seen + [id], picked + if id in startable then [id] else [], tracked')
    ensures id in tracked <==> id in before
  {}

  lemma AllRelaunched(startable: set<TaskId>, before: set<TaskId>, seen: seq<TaskId>, picked: seq<TaskId>,
                      tracked: set<TaskId>)
    requires Relaunched(startable, before, seen, picked, tracked)
    ensures NoDuplicates(picked) && forall id :: id in picked <==> id in seen && id in startable
    ensures forall id | id !in seen :: id in tracked <==> id in before
  {}

  // ---- ticks in a row ----

  /** What one tick decides and remembers about an enabled task is the next step of the run of
      ticks that the theorems about whole runs speak of. */
  lemma TickIsNextStep(v: View, id: TaskId, cal: Calendar, ticks: seq<int>, n: nat)
    requires n < |ticks| && id in v.tasks && v.tasks[id].enabled
    requires LastOf(v.lastRun, id) == Remembered(WindowsOf(v.windows, id), cal, ticks, n)
    ensures var ws, t := WindowsOf(v.windows, id), cal(ticks[n]);
            && NextLast(v, t, id) == Remembered(ws, cal, ticks, n + 1)
            && (Fires(ws, cal, ticks, n) <==> Decided(v, t, id).Launch?)
            && (Planned(v, t, id) == Attempt ==> Fires(ws, cal, ticks, n))
            && (Fires(ws, cal, ticks, n) && id !in v.tracked ==> Planned(v, t, id) == Attempt)
  {}

  /** What one tick makes of the queue of a task: it may put the task off, and then goes through
      the queues. */
  function TickMoves(v: View, t: Moment, instant: int, id: TaskId, tracked: set<TaskId>): seq<Move> {
    (if Planned(v, t, id) == Defer then [PutOff(instant)] else []) + [Move.Pass(id !in tracked, id in v.tasks)]
  }

  /** If the queue of a task is the one that earlier moves have made as the code is written, it is
      so after a tick; and the tick launches the task from its queue exactly if its last move is a
      launching one. `queue` is the queue before the tick, and `tracked` is what is tracked when
      the tick comes to the queues. */
  lemma TickIsNextMoves(v: View, t: Moment, instant: int, id: TaskId, queue: seq<int>, tracked: set<TaskId>, moves: seq<Move>)
    requires queue == Kept(moves)
    ensures var all := moves + TickMoves(v, t, instant, id, tracked);
            && Kept(all) == NextQueue(v, t, id, queue, instant)
            && (Launches(Kept, all, |all| - 1) <==>
                 NextQueue(v, t, id, queue, instant) != [] && id in v.tasks && id !in tracked)
  {
    var pass := Move.Pass(id !in tracked, id in v.tasks);
    if Planned(v, t, id) == Defer {
      var m := moves + [PutOff(instant)];
      assert m[..|moves|] == moves;
      var all := moves + TickMoves(v, t, instant, id, tracked);
      assert all == m + [pass] && all[..|m|] == m;
    } else {
      var all := moves + TickMoves(v, t, instant, id, tracked);
      assert all == moves + [pass] && all[..|moves|] == moves;
    }
  }
}
