/** The queue of one task as it was meant, next to the queue as it is written: there, the entry
    that a pass pops is popped from a copy. */
module Queueing {

  /** A tick puts the task off; or a pass goes through the queues and finds the task free to be
      launched or still running, and existing or deleted. */
  datatype Move = PutOff(instant: int) | Pass(free: bool, known: bool)

  /** The queue of the service as it is written. */
  function Kept(moves: seq<Move>): seq<int> {
    if moves == [] then []
    else
      var q, m := Kept(moves[..|moves| - 1]), moves[|moves| - 1];
      match m
      case PutOff(instant) => q + [instant]
      case Pass(_, _) => q
  }

  /** The queue if the pass popped from the queue itself. */
  function Meant(moves: seq<Move>): seq<int> {
    if moves == [] then []
    else
      var q, m := Meant(moves[..|moves| - 1]), moves[|moves| - 1];
      match m
      case PutOff(instant) => q + [instant]
      case Pass(free, _) => if free && q != [] then q[1..] else q
  }

  /** Pass `i` takes an entry from the queue. */
  predicate Takes(queue: seq<Move> -> seq<int>, moves: seq<Move>, i: nat)
    requires i < |moves|
  {
    moves[i].Pass? && moves[i].free && queue(moves[..i]) != []
  }

  /** It also launches the task. */
  predicate Launches(queue: seq<Move> -> seq<int>, moves: seq<Move>, i: nat)
    requires i < |moves|
  {
    Takes(queue, moves, i) && moves[i].known
  }

  function TakeCount(queue: seq<Move> -> seq<int>, moves: seq<Move>): nat {
    if moves == [] then 0
    else
      var n := |moves| - 1;
      TakeCount(queue, moves[..n]) + if Takes(queue, moves, n) then 1 else 0
  }

  function LaunchCount(queue: seq<Move> -> seq<int>, moves: seq<Move>): nat {
    if moves == [] then 0
    else
      var n := |moves| - 1;
      LaunchCount(queue, moves[..n]) + if Launches(queue, moves, n) then 1 else 0
  }

  function PutOffs(moves: seq<Move>): seq<int> {
    if moves == [] then []
    else
      var rest, m := PutOffs(moves[..|moves| - 1]), moves[|moves| - 1];
      if m.PutOff? then rest + [m.instant] else rest
  }

  /** As meant, the instants put off are those that passes have taken, in their order, followed by
      those that still wait. */
  lemma {:induction false} MeantAccounting(moves: seq<Move>)
    ensures TakeCount(Meant, moves) + |Meant(moves)| == |PutOffs(moves)|
    ensures Meant(moves) == PutOffs(moves)[TakeCount(Meant, moves)..]
  {
    if moves != [] {
      MeantAccounting(moves[..|moves| - 1]);
    }
  }

  /** As written, every instant ever put off stays. */
  lemma {:induction false} KeptIsAll(moves: seq<Move>)
    ensures Kept(moves) == PutOffs(moves)
  {
    if moves != [] {
      KeptIsAll(moves[..|moves| - 1]);
    }
  }

  /** Put off once, an existing task is launched by the first pass that finds it free, and by every
      later one. */
  lemma LaunchedWhenFree(moves: seq<Move>, i: nat)
    requires i < |moves|
    ensures Launches(Kept, moves, i) <==> moves[i] == Pass(true, true) && exists j :: 0 <= j < i && moves[j].PutOff?
  {
    KeptIsAll(moves[..i]);
    SomePutOff(moves[..i]);
    assert forall j | 0 <= j < i :: moves[..i][j] == moves[j];
  }

  lemma {:induction false} SomePutOff(moves: seq<Move>)
    ensures PutOffs(moves) != [] <==> exists j :: 0 <= j < |moves| && moves[j].PutOff?
  {
    if moves != [] {
      var before := moves[..|moves| - 1];
      SomePutOff(before);
      assert forall j | 0 <= j < |before| :: before[j] == moves[j];
    }
  }

  /** The task is launched from its queue although nothing put off is left to be launched. */
  predicate Surplus(moves: seq<Move>, i: nat)
    requires i < |moves|
  {
    moves[i] == Pass(true, true) && PutOffs(moves[..i]) != [] && Meant(moves[..i]) == []
  }

  function SurplusPasses(moves: seq<Move>): set<nat> {
    set i: nat | i < |moves| && Surplus(moves, i)
  }

  lemma SurplusGrows(moves: seq<Move>)
    requires moves != []
    ensures var n := |moves| - 1;
            && SurplusPasses(moves) == SurplusPasses(moves[..n]) + (if Surplus(moves, n) then {n} else {})
            && n !in SurplusPasses(moves[..n])
  {
    var n := |moves| - 1;
    forall i | 0 <= i < n ensures Surplus(moves[..n], i) <==> Surplus(moves, i) {
      assert moves[..n][..i] == moves[..i];
    }
    hide Surplus;
  }

  /** How many launches the code makes too many: one for each pass that finds the task existing and
      free when the queue, had it been popped, would be empty again. */
  lemma {:induction false} TooManyLaunches(moves: seq<Move>)
    ensures LaunchCount(Kept, moves) == LaunchCount(Meant, moves) + |SurplusPasses(moves)|
  {
    if moves != [] {
      var n := |moves| - 1;
      var before := moves[..n];
      TooManyLaunches(before);
      KeptIsAll(before);
      MeantAccounting(before);
      SurplusGrows(moves);
    } else {
      assert SurplusPasses(moves) == {};
    }
  }

  /** The code launches as often as it was meant to exactly as long as no pass finds the task
      existing and free with nothing left to wait for. */
  lemma LaunchesAgree(moves: seq<Move>)
    ensures LaunchCount(Kept, moves) == LaunchCount(Meant, moves) <==> forall i: nat | i < |moves| :: !Surplus(moves, i)
  {
    TooManyLaunches(moves);
    if SurplusPasses(moves) != {} {
      var i :| i in SurplusPasses(moves);
    } else {
      forall i: nat | i < |moves| ensures !Surplus(moves, i) {
        assert i !in SurplusPasses(moves);
      }
    }
  }

  /** Put off once, the task is launched by every pass that finds it free. */
  lemma OnceIsForEver(n: nat)
    ensures LaunchCount(Kept, [PutOff(540)] + seq(n, _ => Pass(true, true))) == n
    ensures LaunchCount(Meant, [PutOff(540)] + seq(n, _ => Pass(true, true))) == if n == 0 then 0 else 1
  {
    var moves := [PutOff(540)] + seq(n, _ => Pass(true, true));
    if n == 0 {
      assert moves[..0] == [];
    } else {
      var before := [PutOff(540)] + seq(n - 1, _ => Pass(true, true));
      assert moves[..n] == before;
      OnceIsForEver(n - 1);
      KeptIsAll(before);
      MeantAccounting(before);
      OnePutOff(before);
      AllTaken(before);
    }
  }

  lemma {:induction false} OnePutOff(moves: seq<Move>)
    requires moves != [] && moves[0].PutOff? && forall i | 0 < i < |moves| :: moves[i].Pass?
    ensures PutOffs(moves) == [moves[0].instant]
  {
    if |moves| > 1 { OnePutOff(moves[..|moves| - 1]); } else { assert moves[..0] == []; }
  }

  /** If every pass knows the task, every entry taken is launched. */
  lemma {:induction false} AllTaken(moves: seq<Move>)
    requires forall i | 0 <= i < |moves| && moves[i].Pass? :: moves[i].known
    ensures TakeCount(Meant, moves) == LaunchCount(Meant, moves)
  {
    if moves != [] { AllTaken(moves[..|moves| - 1]); }
  }
}
