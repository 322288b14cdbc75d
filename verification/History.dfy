/** The run history table: rows by primary key, the query that lists the newest rows of a
    task, and trimming. */
module History {
  import opened Common

  /** Canonical lower-case GUIDs, as numbers. */
  type TaskId = nat
  type RowId = nat

  datatype Status = Running | Completed | Failed | Killed | Timeout

  datatype Message = NoMessage | KilledByTimeout | TimeoutExceeded

  /** `start` is the start stamp; stamps are texts of one fixed format, so their order is the
      order of the seconds they name. */
  datatype Row = Row(
    task: TaskId, start: int, end: Option<int>, exitCode: Option<int>, pid: int, status: Status, message: Message)

  type Table = map<RowId, Row>

  /** How the run of a process ends for the history: with an exit code, or by a timeout, with or
      without being killed. */
  datatype Ending = Exited(code: int) | Expired(kill: bool)

  /** Column by column, what recording an ending at `now` makes of a row. */
  predicate Shows(before: Row, after: Row, now: int, e: Ending) {
    && after.task == before.task && after.start == before.start && after.pid == before.pid
    && after.end == Some(now)
    && match e
       case Exited(code) =>
         after.status == Completed && after.exitCode == Some(code) && after.message == before.message
       case Expired(kill) =>
         && after.status == Timeout && after.exitCode == before.exitCode
         && after.message == if kill then KilledByTimeout else TimeoutExceeded
  }

  function RowsOf(t: Table, id: TaskId): set<RowId> {
    set r | r in t && t[r].task == id
  }

  /** UPDATE ... WHERE id = r: every column but the task and the start stamp. */
  function Update(t: Table, r: RowId, row: Row): Table {
    if r in t then t[r := row.(task := t[r].task, start := t[r].start)] else t
  }

  /** How many rows a query with this LIMIT returns; negative is no limit. */
  function Capped(count: nat, limit: int): nat {
    if limit < 0 || count <= limit then count else limit
  }

  /** A possible answer to get_history: newest first, and nothing omitted is newer than
      anything listed. Rows with one stamp may come in any order. */
  ghost predicate Listing(t: Table, id: TaskId, limit: int, rows: seq<RowId>) {
    && NewestFirst(t, RowsOf(t, id), rows)
    && |rows| == Capped(|RowsOf(t, id)|, limit)
  }

  /** `rows` are distinct members of `all`, newest first, and no other member is newer. */
  ghost predicate NewestFirst(t: Table, all: set<RowId>, rows: seq<RowId>)
    requires all <= t.Keys
  {
    && NoDuplicates(rows)
    && Elements(rows) <= all
    && (forall i, j | 0 <= i < j < |rows| :: rows[i] in t && rows[j] in t && t[rows[j]].start <= t[rows[i]].start)
    && (forall r, i | r in all && r !in rows && 0 <= i < |rows| ::
          rows[i] in t && t[r].start <= t[rows[i]].start)
  }

  lemma NewestFirstExtend(t: Table, all: set<RowId>, rows: seq<RowId>, r: RowId)
    requires all <= t.Keys && NewestFirst(t, all, rows) && r in all && r !in rows
    requires forall x | x in all && x !in rows :: t[x].start <= t[r].start
    ensures NewestFirst(t, all, rows + [r])
    ensures Elements(rows + [r]) == Elements(rows) + {r}
  {}

  /** The row a query with LIMIT 1 may pick. */
  ghost predicate IsNewest(t: Table, id: TaskId, pick: Option<RowId>) {
    match pick
    case None => RowsOf(t, id) == {}
    case Some(r) => r in RowsOf(t, id) && forall x | x in RowsOf(t, id) :: t[x].start <= t[r].start
  }

  lemma NewestIsListing(t: Table, id: TaskId, rows: seq<RowId>)
    ensures Listing(t, id, 1, rows) <==>
      (rows == [] && IsNewest(t, id, None)) || (|rows| == 1 && IsNewest(t, id, Some(rows[0])))
  {
    if |rows| == 1 {
      assert rows == [rows[0]] && Elements(rows) == {rows[0]};
      if rows[0] in RowsOf(t, id) {
        SubsetCount({rows[0]}, RowsOf(t, id));
      }
      assert forall x | x in RowsOf(t, id) :: x in rows <==> x == rows[0];
    } else if rows == [] {
      assert Elements(rows) == {};
    }
  }

  lemma NewestExists(t: Table, id: TaskId) returns (pick: Option<RowId>)
    ensures IsNewest(t, id, pick) && (pick.Some? ==> pick.value in t)
  {
    if RowsOf(t, id) == {} { return None; }
    var r := LatestExists(t, RowsOf(t, id));
    pick := Some(r);
  }

  lemma {:induction false} LatestExists(t: Table, rows: set<RowId>) returns (r: RowId)
    requires rows != {} && rows <= t.Keys
    ensures r in rows && forall x | x in rows :: t[x].start <= t[r].start
    decreases rows
  {
    r :| r in rows;
    if rows != {r} {
      assert rows == {r} + (rows - {r});
      var q := LatestExists(t, rows - {r});
      if t[r].start < t[q].start { r := q; }
    }
  }

  /** The largest start stamp among some rows. */
  method Latest(t: Table, rows: set<RowId>) returns (r: RowId)
    requires rows != {} && rows <= t.Keys
    ensures r in rows && forall x | x in rows :: t[x].start <= t[r].start
  {
    r :| r in rows;
    var todo := rows - {r};
    while todo != {}
      invariant todo <= rows && r in rows
      invariant forall x | x in rows - todo :: t[x].start <= t[r].start
      decreases todo
    {
      var x :| x in todo;
      if t[r].start < t[x].start { r := x; }
      todo := todo - {x};
    }
  }

  /** ORDER BY start_time DESC LIMIT. */
  method GetHistory(t: Table, id: TaskId, limit: int) returns (rows: seq<RowId>)
    ensures Listing(t, id, limit, rows)
  {
    hide NewestFirst;
    rows := [];
    var all := RowsOf(t, id);
    var rest := all;
    assert Elements(rows) == {};
    EmptyListing(t, all);
    while rest != {} && |rows| != limit
      invariant rest == all - Elements(rows) && Elements(rows) <= all
      invariant NewestFirst(t, all, rows)
      invariant limit >= 0 ==> |rows| <= limit
      invariant |rows| + |rest| == |all|
      decreases rest
    {
      var r := Latest(t, rest);
      NewestFirstExtend(t, all, rows, r);
      rows := rows + [r];
      rest := rest - {r};
    }
  }

  /** The first row of a listing of one. */
  method Newest(t: Table, id: TaskId) returns (pick: Option<RowId>)
    ensures IsNewest(t, id, pick) && (pick.Some? ==> pick.value in t)
  {
    hide Listing;
    var rows := GetHistory(t, id, 1);
    NewestIsListing(t, id, rows);
    pick := if rows == [] then None else Some(rows[0]);
  }

  lemma EmptyListing(t: Table, all: set<RowId>)
    requires all <= t.Keys
    ensures NewestFirst(t, all, [])
  {}

  // ---- trimming ----

  /** A possible outcome of the DELETE: as many of the oldest rows as exceed `max` are gone. */
  ghost predicate Trimmed(t: Table, id: TaskId, max: int, t': Table) {
    if |RowsOf(t, id)| <= max then t' == t
    else exists gone :: Dropped(t, id, gone, t') && |gone| == Capped(|RowsOf(t, id)|, |RowsOf(t, id)| - max)
  }

  ghost predicate Dropped(t: Table, id: TaskId, gone: set<RowId>, t': Table) {
    && gone <= RowsOf(t, id)
    && (forall d, k | d in gone && k in RowsOf(t, id) - gone :: t[d].start <= t[k].start)
    && t' == t - gone
  }

  /** The smallest start stamp among some rows. */
  method Earliest(t: Table, rows: set<RowId>) returns (r: RowId)
    requires rows != {} && rows <= t.Keys
    ensures r in rows && forall x | x in rows :: t[r].start <= t[x].start
  {
    r :| r in rows;
    var todo := rows - {r};
    while todo != {}
      invariant todo <= rows && r in rows
      invariant forall x | x in rows - todo :: t[r].start <= t[x].start
      decreases todo
    {
      var x :| x in todo;
      if t[x].start < t[r].start { r := x; }
      todo := todo - {x};
    }
  }

  /** Counts the rows of the task, and deletes the oldest ones beyond `max`. */
  method TrimHistory(t: Table, id: TaskId, max: int) returns (t': Table)
    ensures Trimmed(t, id, max, t')
  {
    var all := RowsOf(t, id);
    if |all| <= max { return t; }
    var gone := {};
    while |gone| < |all| - max && gone != all
      invariant gone <= all
      invariant |gone| <= |all| - max
      invariant forall d, k | d in gone && k in all - gone :: t[d].start <= t[k].start
      decreases all - gone
    {
      SubsetCount(gone, all);
      var r := Earliest(t, all - gone);
      gone := gone + {r};
    }
    t' := t - gone;
    SubsetCount(gone, all);
    assert Dropped(t, id, gone, t');
  }

  ghost predicate DistinctStarts(t: Table, id: TaskId) {
    forall x, y | x in RowsOf(t, id) && y in RowsOf(t, id) && x != y :: t[x].start != t[y].start
  }

  /** Of two sets of oldest rows one contains the other, so equally large ones coincide. */
  lemma OldestAreUnique(t: Table, id: TaskId, a: set<RowId>, b: set<RowId>, ta: Table, tb: Table)
    requires DistinctStarts(t, id) && Dropped(t, id, a, ta) && Dropped(t, id, b, tb) && |a| <= |b|
    ensures a <= b
  {
    if x :| x in a && x !in b {
      assert b <= a;
      SubsetCount(b, a - {x});
      SubsetCount(a - {x}, a);
    }
  }

  /** With distinct start stamps there is only one way to trim. */
  lemma TrimIsUnique(t: Table, id: TaskId, max: nat, t': Table, t'': Table)
    requires DistinctStarts(t, id) && Trimmed(t, id, max, t') && Trimmed(t, id, max, t'')
    ensures t'' == t'
  {
    if |RowsOf(t, id)| > max {
      var gone :| Dropped(t, id, gone, t') && |gone| == |RowsOf(t, id)| - max;
      var other :| Dropped(t, id, other, t'') && |other| == |RowsOf(t, id)| - max;
      OldestAreUnique(t, id, gone, other, t', t'');
      OldestAreUnique(t, id, other, gone, t'', t');
    }
  }

  lemma DroppedRows(t: Table, id: TaskId, gone: set<RowId>)
    requires gone <= RowsOf(t, id)
    ensures RowsOf(t - gone, id) == RowsOf(t, id) - gone
    ensures |RowsOf(t, id) - gone| == |RowsOf(t, id)| - |gone|
  {
    assert gone + (RowsOf(t, id) - gone) == RowsOf(t, id);
  }

  lemma DroppedKeeps(t: Table, id: TaskId, gone: set<RowId>, t': Table)
    requires DistinctStarts(t, id) && Dropped(t, id, gone, t')
    ensures RowsOf(t', id) == RowsOf(t, id) - gone
    ensures |RowsOf(t', id)| == |RowsOf(t, id)| - |gone|
    ensures t' == t - (RowsOf(t, id) - RowsOf(t', id))
    ensures forall d, k | d in RowsOf(t, id) - RowsOf(t', id) && k in RowsOf(t', id) :: t[d].start < t[k].start
  {
    DroppedRows(t, id, gone);
    var all := RowsOf(t, id);
    hide RowsOf;
    assert all - (all - gone) == gone;
    forall d, k | d in gone && k in all - gone ensures t[d].start < t[k].start {
      assert t[d].start != t[k].start;
    }
  }

  /** Trimming keeps exactly the newest `max` rows of the task and every row of the others,
      and trimming again changes nothing. */
  lemma TrimKeepsNewest(t: Table, id: TaskId, max: nat, t': Table)
    requires DistinctStarts(t, id) && Trimmed(t, id, max, t')
    ensures |RowsOf(t', id)| == Capped(|RowsOf(t, id)|, max)
    ensures forall d, k | d in RowsOf(t, id) - RowsOf(t', id) && k in RowsOf(t', id) :: t[d].start < t[k].start
    ensures t' == t - (RowsOf(t, id) - RowsOf(t', id))
    ensures Trimmed(t', id, max, t')
  {
    if |RowsOf(t, id)| > max {
      var gone :| Dropped(t, id, gone, t') && |gone| == |RowsOf(t, id)| - max;
      DroppedKeeps(t, id, gone, t');
    } else {
      DroppedKeeps(t, id, {}, t');
    }
  }

  lemma ListedAreKept(t: Table, id: TaskId, max: nat, t': Table, limit: nat, rows: seq<RowId>)
    requires DistinctStarts(t, id) && Trimmed(t, id, max, t') && limit <= max
    requires Listing(t, id, limit, rows)
    ensures Elements(rows) <= RowsOf(t', id)
  {
    var kept := RowsOf(t', id);
    TrimKeepsNewest(t, id, max, t');
    DistinctCount(rows);
    if r :| r in Elements(rows) && r !in kept {
      forall k | k in kept ensures k in rows {
        assert t[r].start < t[k].start;
      }
      SubsetCount(kept + {r}, Elements(rows));
    }
  }

  lemma ListedBelong(t: Table, id: TaskId, limit: int, rows: seq<RowId>)
    requires Listing(t, id, limit, rows)
    ensures Elements(rows) <= RowsOf(t, id)
  {}

  lemma NewestFirstRestrict(t: Table, all: set<RowId>, t': Table, kept: set<RowId>, rows: seq<RowId>)
    requires all <= t.Keys && kept <= all && t' == t - (all - kept)
    requires forall d, k | d in all - kept && k in kept :: t[d].start < t[k].start
    requires Elements(rows) <= kept
    ensures NewestFirst(t', kept, rows) <==> NewestFirst(t, all, rows)
  {
    assert forall i | 0 <= i < |rows| :: rows[i] in Elements(rows);
  }

  /** Every listing short enough to fit into what is kept is the same before and after. */
  lemma TrimKeepsListings(t: Table, id: TaskId, max: nat, t': Table, limit: nat, rows: seq<RowId>)
    requires DistinctStarts(t, id) && Trimmed(t, id, max, t') && limit <= max
    ensures Listing(t', id, limit, rows) <==> Listing(t, id, limit, rows)
  {
    hide NewestFirst, Trimmed;
    TrimKeepsNewest(t, id, max, t');
    if Listing(t, id, limit, rows) {
      ListedAreKept(t, id, max, t', limit, rows);
      NewestFirstRestrict(t, RowsOf(t, id), t', RowsOf(t', id), rows);
    }
    if Listing(t', id, limit, rows) {
      ListedBelong(t', id, limit, rows);
      NewestFirstRestrict(t, RowsOf(t, id), t', RowsOf(t', id), rows);
    }
  }
}
