/** Requests that create, replace and list the time windows of a task, and what of a window
    survives the whole way from one client to another. */
module WindowRequests {
  import opened Bytes
  import opened Common
  import opened JsonString
  import opened JsonParser
  import opened JsonPrinter
  import opened JsonSerializer
  import opened JsonValues
  import opened TimeWindows
  import opened WindowJson
  import opened WindowStore

  const ZERO_ID: Text := Ascii("00000000-0000-0000-0000-000000000000")
  const TIME_WINDOWS: Text := Ascii("TimeWindows")
  const TIMEOUT_MINUTES: Text := Ascii("TimeoutMinutes")

  type Table = map<Text, Row>

  // ---- ids ----

  /** The digits of an identifier as UuidCreate draws it: the thirteenth is the version, 4 (RFC 9562
      section 5.4). */
  predicate IsGuid(g: seq<int>) {
    |g| == 32 && (forall i | 0 <= i < 32 :: 0 <= g[i] < 16) && g[12] == 4
  }

  type Guid = g: seq<int> | IsGuid(g) witness seq(32, i => if i == 12 then 4 else 0)

  function Digits(g: Guid, from: nat, to: nat): (t: Text)
    requires from <= to <= 32
    ensures |t| == to - from && forall i | 0 <= i < |t| :: 48 <= t[i] < 0x80
    ensures forall i | 0 <= i < |t| :: t[i] == HexDigit(g[from + i])
  {
    if from == to then [] else Digits(g, from, to - 1) + [HexDigit(g[to - 1])]
  }

  /** Lower case, without braces. */
  function GuidText(g: Guid): (t: Text)
    ensures NulFree(t) && t != [] && forall i | 0 <= i < |t| :: t[i] < 0x80
  {
    Digits(g, 0, 8) + [MINUS] + Digits(g, 8, 12) + [MINUS] + Digits(g, 12, 16) + [MINUS] + Digits(g, 16, 20) + [MINUS]
    + Digits(g, 20, 32)
  }

  /** Which digit of an identifier stands at a place of its text. */
  function DigitAt(i: nat): int {
    if i < 8 then i else if i < 13 then i - 1 else if i < 18 then i - 2 else if i < 23 then i - 3 else i - 4
  }

  /** Thirty-two hexadecimal digits in lower case, and four dashes. */
  lemma GuidShape(g: Guid)
    ensures |GuidText(g)| == 36
    ensures forall i | 0 <= i < 36 && 0 <= DigitAt(i) < 32 ::
              GuidText(g)[i] == if i in {8, 13, 18, 23} then Ascii("-")[0] else Ascii("0123456789abcdef")[g[DigitAt(i)]]
  {
    hide Digits;
    var t := GuidText(g);
    assert Ascii("-")[0] == MINUS;
    forall d: nat | d < 16 ensures HexDigit(d) == Ascii("0123456789abcdef")[d] {
      assert Ascii("0123456789abcdef") == [48, 49, 50, 51, 52, 53, 54, 55, 56, 57, 97, 98, 99, 100, 101, 102];
    }
    forall i | 0 <= i < 36
      ensures t[i] == if i in {8, 13, 18, 23} then MINUS else HexDigit(g[DigitAt(i)])
    {
      GuidAt(g, i);
    }
  }

  lemma GuidAt(g: Guid, i: nat)
    requires i < 36
    ensures |GuidText(g)| == 36 && 0 <= DigitAt(i) < 32
    ensures GuidText(g)[i] == if i in {8, 13, 18, 23} then MINUS else HexDigit(g[DigitAt(i)])
  {
    hide Digits;
  }

  predicate NeedsId(id: Text) {
    id == [] || id == ZERO_ID
  }

  /** Thirty-six characters: dashes at their places and zeros everywhere else. */
  predicate AllZero(id: Text) {
    |id| == 36 && forall i | 0 <= i < 36 :: id[i] == if i in {8, 13, 18, 23} then 45 else 48
  }

  /** An id is drawn in place of an empty one and of the all-zero one, which is what clients send
      for something new. */
  lemma NeedsIdMeaning(id: Text)
    ensures NeedsId(id) <==> id == [] || AllZero(id)
  {
    assert AllZero(ZERO_ID);
  }

  lemma DrawnIsReal(g: Guid)
    ensures !NeedsId(GuidText(g))
  {
    NeedsIdMeaning(GuidText(g));
    GuidAt(g, 14);
    assert HexDigit(4) == 52;
  }

  /** As a key, the part before the first NUL byte counts. An id that was not replaced is a key
      that is empty or all zeros exactly if a NUL byte cuts it off there. */
  lemma KeyOfId(id: Text)
    requires !NeedsId(id)
    ensures NeedsId(CText(id)) <==> id[0] == NUL || (|id| > 36 && AllZero(id[..36]) && id[36] == NUL)
  {
    NeedsIdMeaning(id);
    NeedsIdMeaning(CText(id));
    CTextIsPrefix(id);
    hide NeedsId;
    if |id| > 36 && AllZero(id[..36]) && id[36] == NUL {
      CutOff(id);
    } else if id[0] != NUL {
      hide AllZero;
      CutElsewhere(id);
    }
  }

  lemma CutOff(id: Text)
    requires |id| > 36 && AllZero(id[..36]) && id[36] == NUL
    ensures CText(id) == id[..36]
  {
    assert forall i | 0 <= i < 36 :: id[i] == id[..36][i];
    CTextSkips(id, 36);
    assert id[36..][0] == NUL;
  }

  lemma CutElsewhere(id: Text)
    requires id != [] && id[0] != NUL && !AllZero(id) && !(|id| > 36 && AllZero(id[..36]) && id[36] == NUL)
    ensures CText(id) != [] && !AllZero(CText(id))
  {
    CTextIsPrefix(id);
    var t := CText(id);
    assert t != [];
    hide CText;
    if |t| == 36 {
      assert t == id[..36];
      if |id| == 36 { assert t == id; }
    }
  }

  lemma {:induction false} CTextIsPrefix(s: Text)
    ensures CText(s) <= s && (|CText(s)| < |s| ==> s[|CText(s)|] == NUL)
  {
    if s != [] && s[0] != NUL {
      CTextIsPrefix(s[1..]);
      assert s == [s[0]] + s[1..];
    }
  }

  /** `w` is what `r` becomes before it is inserted: owned by the task and with an id. */
  ghost predicate FilledOne(r: Window, w: Window, taskId: Text) {
    && w == r.(taskId := taskId, id := w.id)
    && (if NeedsId(r.id) then exists g: Guid :: w.id == GuidText(g) else w.id == r.id)
  }

  ghost predicate Filled(read: seq<Window>, ws: seq<Window>, taskId: Text) {
    |ws| <= |read| && forall i | 0 <= i < |ws| :: FilledOne(read[i], ws[i], taskId)
  }

  /** How many of the windows need an id. */
  function Needing(read: seq<Window>): nat {
    if read == [] then 0 else Needing(read[..|read| - 1]) + if NeedsId(read[|read| - 1].id) then 1 else 0
  }

  /** The ids the windows get, the next identifier to be drawn being number `drawn`. */
  function IdsFor(read: seq<Window>, guids: nat -> Guid, drawn: nat): (ids: seq<Text>)
    ensures |ids| == |read|
  {
    if read == [] then []
    else
      var before := read[..|read| - 1];
      IdsFor(before, guids, drawn) +
        [if NeedsId(read[|read| - 1].id) then GuidText(guids(drawn + Needing(before))) else read[|read| - 1].id]
  }

  lemma {:induction false} IdAt(read: seq<Window>, guids: nat -> Guid, drawn: nat, i: nat)
    requires i < |read|
    ensures IdsFor(read, guids, drawn)[i] ==
      if NeedsId(read[i].id) then GuidText(guids(drawn + Needing(read[..i]))) else read[i].id
  {
    hide NeedsId, GuidText;
    var before := read[..|read| - 1];
    if i < |before| {
      IdAt(before, guids, drawn, i);
      assert before[..i] == read[..i];
    }
  }

  /** The ids are new keys, and different ones. */
  ghost predicate NewKeys(t: Table, ids: seq<Text>) {
    && (forall i | 0 <= i < |ids| :: CText(ids[i]) !in t)
    && (forall i, j | 0 <= i < j < |ids| :: CText(ids[i]) != CText(ids[j]))
  }

  lemma {:induction false} NeedingGrows(read: seq<Window>, i: nat, j: nat)
    requires i <= j <= |read|
    ensures Needing(read[..i]) <= Needing(read[..j])
    ensures i < j && NeedsId(read[i].id) ==> Needing(read[..i]) < Needing(read[..j])
  {
    hide NeedsId;
    if i < j {
      NeedingGrows(read, i, j - 1);
      assert read[..j][..j - 1] == read[..j - 1];
    }
  }

  /** A request goes through if the ids it sends are different new keys, and the identifiers drawn are
      different from these, from each other and from all keys. */
  lemma FreshIdsGoThrough(t: Table, read: seq<Window>, guids: nat -> Guid, drawn: nat)
    requires forall i | 0 <= i < |read| && !NeedsId(read[i].id) :: CText(read[i].id) !in t
    requires forall i, j | 0 <= i < j < |read| && !NeedsId(read[i].id) && !NeedsId(read[j].id) ::
               CText(read[i].id) != CText(read[j].id)
    requires forall k | drawn <= k < drawn + Needing(read) :: CText(GuidText(guids(k))) !in t
    requires forall k, l | drawn <= k < l < drawn + Needing(read) :: CText(GuidText(guids(k))) != CText(GuidText(guids(l)))
    requires forall k, i | drawn <= k < drawn + Needing(read) && 0 <= i < |read| && !NeedsId(read[i].id) ::
               CText(GuidText(guids(k))) != CText(read[i].id)
    ensures NewKeys(t, IdsFor(read, guids, drawn))
  {
    hide NeedsId, GuidText, CText;
    var ids := IdsFor(read, guids, drawn);
    assert read[..|read|] == read;
    forall i | 0 <= i < |read|
      ensures ids[i] == if NeedsId(read[i].id) then GuidText(guids(drawn + Needing(read[..i]))) else read[i].id
      ensures NeedsId(read[i].id) ==> Needing(read[..i]) < Needing(read)
    {
      IdAt(read, guids, drawn, i);
      NeedingGrows(read, i, |read|);
    }
    forall i, j | 0 <= i < j < |read| ensures CText(ids[i]) != CText(ids[j]) {
      NeedingGrows(read, i, j);
    }
  }

  // ---- the table ----

  /** The windows `ws` have been inserted into `a`, under different new keys. */
  ghost predicate Inserted(fmt: Format, a: Table, ws: seq<Window>, b: Table) {
    && (forall i | 0 <= i < |ws| :: CText(ws[i].id) !in a)
    && (forall i, j | 0 <= i < j < |ws| :: CText(ws[i].id) != CText(ws[j].id))
    && (forall k :: k in b <==> k in a || exists i :: 0 <= i < |ws| && CText(ws[i].id) == k)
    && (forall k | k in a :: k in b && b[k] == a[k])
    && (forall i | 0 <= i < |ws| :: CText(ws[i].id) in b && StoredAs(fmt, ws[i], b[CText(ws[i].id)]))
  }

  lemma InsertedMore(fmt: Format, a: Table, ws: seq<Window>, b: Table, w: Window, r: Row)
    requires Inserted(fmt, a, ws, b) && CText(w.id) !in b && StoredAs(fmt, w, r)
    ensures Inserted(fmt, a, ws + [w], b[CText(w.id) := r])
  {
    hide StoredAs, CText;
    var all, c := ws + [w], b[CText(w.id) := r];
    assert all[|ws|] == w && forall i | 0 <= i < |ws| :: all[i] == ws[i];
    forall k ensures k in c <==> k in a || exists i :: 0 <= i < |all| && CText(all[i].id) == k {
      if i :| 0 <= i < |ws| && CText(ws[i].id) == k { assert CText(all[i].id) == k; }
    }
  }

  function Without(t: Table, taskId: Text): Table {
    map k | k in t && t[k].taskId != taskId :: t[k]
  }

  function KeysOf(t: Table, taskId: Text): set<Text> {
    set k | k in t && t[k].taskId == taskId
  }

  /** The rows of a task in some order, each loaded. */
  ghost predicate LoadedInOrder(t: Table, taskId: Text, order: seq<Text>, ws: seq<Window>) {
    && NoDuplicates(order) && Elements(order) == KeysOf(t, CText(taskId)) && |ws| == |order|
    && forall i | 0 <= i < |order| :: order[i] in t && Loaded(t[order[i]], taskId) == Some(ws[i])
  }

  /** Some row of the task does not hold what it should. */
  predicate Unreadable(t: Table, taskId: Text) {
    exists k | k in KeysOf(t, CText(taskId)) :: Loaded(t[k], taskId).None?
  }

  /** The rows of the owner are the same. */
  predicate SameRows(a: Table, b: Table, owner: Text) {
    KeysOf(a, owner) == KeysOf(b, owner) && forall k | k in KeysOf(a, owner) :: a[k] == b[k]
  }

  lemma SameRowsOn(a: Table, b: Table, c: Table, owner: Text)
    requires SameRows(a, b, owner) && SameRows(b, c, owner)
    ensures SameRows(a, c, owner)
  {
    hide KeysOf;
  }

  lemma InsertedElsewhere(fmt: Format, a: Table, ws: seq<Window>, b: Table, owner: Text)
    requires Inserted(fmt, a, ws, b) && forall i | 0 <= i < |ws| :: CText(ws[i].taskId) != owner
    ensures SameRows(a, b, owner)
  {
    hide CText, Column;
    assert forall i | 0 <= i < |ws| :: b[CText(ws[i].id)].taskId != owner;
  }

  lemma DeletedElsewhere(a: Table, other: Text, owner: Text)
    requires other != owner
    ensures SameRows(a, Without(a, other), owner)
  {}

  // ---- the requests ----

  /** A task object whose limit, if given, is a number. Reading anything else fails. */
  predicate TaskReadable(v: Value) {
    v.Obj? && (TIMEOUT_MINUTES in v.fields ==> v.fields[TIMEOUT_MINUTES].Null? || v.fields[TIMEOUT_MINUTES].Num?)
  }

  function ListSent(v: Value): Option<Value> {
    var tws := v.Get(TIME_WINDOWS);
    if tws.Some? && tws.value.Arr? then tws else None
  }

  /** The windows read from a request: its list is printed and parsed once more on the way. */
  ghost predicate ReadFrom(fmt: Format, v: Value, read: seq<Window>) {
    match ListSent(v)
    case None => read == []
    case Some(list) => exists text :: Prints(fmt, list, text) && read == WindowsIn(ParseValue(text).value)
  }

  lemma AllReal(ws: seq<Window>)
    requires forall i | 0 <= i < |ws| :: !NeedsId(ws[i].id)
    ensures forall i | 0 <= i < |ws| :: ws[i].id != [] && !AllZero(ws[i].id)
  {
    forall i | 0 <= i < |ws| ensures ws[i].id != [] && !AllZero(ws[i].id) { NeedsIdMeaning(ws[i].id); }
  }

  lemma EmptyInserted(t: Table)
    ensures forall fmt: Format :: Inserted(fmt, t, [], t)
  {}

  lemma InsertedAreNew(fmt: Format, a: Table, ws: seq<Window>, b: Table, ids: seq<Text>)
    requires Inserted(fmt, a, ws, b) && |ids| == |ws| && forall i | 0 <= i < |ws| :: ws[i].id == ids[i]
    ensures NewKeys(a, ids)
  {
    hide CText, StoredAs;
  }

  /** What one more id makes of those inserted so far. */
  lemma IdsOf(fmt: Format, a: Table, ws: seq<Window>, b: Table, ids: seq<Text>, id: Text)
    requires Inserted(fmt, a, ws, b) && |ws| < |ids| && ids[|ws|] == id
    requires forall i | 0 <= i < |ws| :: ws[i].id == ids[i]
    ensures NewKeys(a, ids[..|ws|])
    ensures CText(id) in b ==> !NewKeys(a, ids[..|ws| + 1]) && !NewKeys(a, ids)
  {
    hide CText, StoredAs;
    InsertedAreNew(fmt, a, ws, b, ids[..|ws|]);
    if CText(id) in b {
      assert ids[..|ws| + 1][|ws|] == id;
      if CText(id) !in a {
        var i :| 0 <= i < |ws| && CText(ws[i].id) == CText(id);
        assert ids[..|ws| + 1][i] == ids[i];
      }
    }
  }

  class Server {
    var tasks: set<Text>
    var table: Table
    var drawn: nat
    const guids: nat -> Guid
    const fmt: Format

    /** Every row belongs to a task. */
    predicate Valid()
      reads `tasks, `table
    {
      forall k | k in table :: table[k].taskId in tasks
    }

    constructor (guids: nat -> Guid, fmt: Format)
      ensures Valid() && tasks == {} && table == map[] && this.guids == guids && this.fmt == fmt
    {
      tasks, table, drawn := {}, map[], 0;
      this.guids, this.fmt := guids, fmt;
    }

    method DrawId() returns (id: Text)
      modifies `drawn
      ensures id == GuidText(guids(old(drawn))) && drawn == old(drawn) + 1
      ensures exists g: Guid :: id == GuidText(g)
      ensures !NeedsId(id)
    {
      DrawnIsReal(guids(drawn));
      id := GuidText(guids(drawn));
      drawn := drawn + 1;
    }

    /** Fails if the key is taken or the task does not exist. */
    method InsertTimeWindow(w: Window) returns (ok: bool, ghost r: Row)
      modifies `table
      requires Valid()
      ensures Valid()
      ensures ok <==> CText(w.id) !in old(table) && CText(w.taskId) in tasks
      ensures ok ==> StoredAs(fmt, w, r) && table == old(table)[CText(w.id) := r]
      ensures !ok ==> table == old(table)
    {
      hide CText, Column;
      var row := StoreRow(w, fmt);
      r := row;
      ok := row.id !in table && row.taskId in tasks;
      if ok { table := table[row.id := row]; }
    }

    method DeleteTimeWindows(taskId: Text)
      requires Valid()
      modifies `table
      ensures Valid() && table == Without(old(table), CText(taskId))
    {
      hide CText;
      table := map k | k in table && table[k].taskId != CText(taskId) :: table[k];
    }

    method FillAndInsert(r: Window, taskId: Text) returns (ok: bool, ghost w: Window, ghost row: Row)
      requires Valid()
      modifies `table, `drawn
      ensures Valid() && FilledOne(r, w, taskId) && !NeedsId(w.id)
      ensures w.id == if NeedsId(r.id) then GuidText(guids(old(drawn))) else r.id
      ensures drawn == old(drawn) + if NeedsId(r.id) then 1 else 0
      ensures ok <==> CText(w.id) !in old(table) && CText(taskId) in tasks
      ensures ok ==> StoredAs(fmt, w, row) && table == old(table)[CText(w.id) := row]
      ensures !ok ==> table == old(table)
    {
      hide StoredAs, CText, NeedsId, GuidText, Valid;
      var filled := r.(taskId := taskId);
      if NeedsId(r.id) {
        var id := DrawId();
        filled := filled.(id := id);
      }
      w := filled;
      ok, row := InsertTimeWindow(filled);
    }

    /** Fills in owner and id of each window and inserts it; the first failure ends it, and what
        was inserted before stays. All are inserted exactly if their ids are different new keys and
        the task exists. */
    method InsertAll(read: seq<Window>, taskId: Text) returns (ok: bool, ghost ws: seq<Window>)
      requires Valid()
      modifies `table, `drawn
      ensures Valid() && Filled(read, ws, taskId) && Inserted(fmt, old(table), ws, table)
      ensures ok <==> |ws| == |read|
      ensures var ids := IdsFor(read, guids, old(drawn));
              && (forall i | 0 <= i < |ws| :: ws[i].id == ids[i] && ws[i].id != [] && !AllZero(ws[i].id))
              && (ok <==> NewKeys(old(table), ids) && (read == [] || CText(taskId) in tasks))
              && (!ok && CText(taskId) in tasks ==>
                   NewKeys(old(table), ids[..|ws|]) && !NewKeys(old(table), ids[..|ws| + 1]))
    {
      hide StoredAs, CText, NeedsId, GuidText, NewKeys, Inserted, IdsFor, FilledOne;
      EmptyInserted(table);
      ws := [];
      ok := true;
      hide Valid;
      ghost var ids := IdsFor(read, guids, drawn);
      for i := 0 to |read|
        invariant Valid() && ok && |ws| == i && drawn == old(drawn) + Needing(read[..i])
        invariant Filled(read, ws, taskId) && Inserted(fmt, old(table), ws, table)
        invariant forall j | 0 <= j < i :: ws[j].id == ids[j] && !NeedsId(ws[j].id)
        invariant i > 0 ==> CText(taskId) in tasks
      {
        IdAt(read, guids, old(drawn), i);
        assert read[..i + 1][..i] == read[..i];
        ghost var before := table;
        ghost var w, row;
        ok, w, row := FillAndInsert(read[i], taskId);
        if !ok {
          IdsOf(fmt, old(table), ws, before, ids, w.id);
          AllReal(ws);
          return;
        }
        InsertedMore(fmt, old(table), ws, before, w, row);
        ws := ws + [w];
      }
      InsertedAreNew(fmt, old(table), ws, table, ids);
      AllReal(ws);
    }

    method ReadList(v: Value) returns (read: seq<Window>)
      ensures ReadFrom(fmt, v, read)
    {
      hide Prints, WindowsIn;
      var tws := ListSent(v);
      if tws.None? { return []; }
      var text := Serialize(tws.value, fmt);
      read := WindowsFromJson(text);
    }

    method HandleCreateTask(payload: Text)
      returns (ok: bool, taskId: Text, ghost read: seq<Window>, ghost ws: seq<Window>)
      requires Valid()
      modifies `tasks, `table, `drawn
      ensures Valid()
      ensures var v := ParseValue(payload).value;
              && (!TaskReadable(v) ==> !ok && tasks == old(tasks) && table == old(table))
              && (TaskReadable(v) ==>
                   && ReadFrom(fmt, v, read)
                   && (if CText(taskId) in old(tasks) then !ok && tasks == old(tasks) && table == old(table)
                       else
                         && tasks == old(tasks) + {CText(taskId)} && (ok <==> |ws| == |read|)
                         && Filled(read, ws, taskId) && Inserted(fmt, old(table), ws, table)))
      ensures var v := ParseValue(payload).value;
              var sent := OrEmpty(TextAt(v, Id));
              TaskReadable(v) ==>
                && taskId == (if sent == [] || AllZero(sent) then GuidText(guids(old(drawn))) else sent)
                && taskId != [] && !AllZero(taskId)
                && (CText(taskId) !in old(tasks) ==>
                     && (ok <==> NewKeys(old(table), IdsFor(read, guids, old(drawn) + if taskId == sent then 0 else 1)))
                     && forall i | 0 <= i < |ws| :: ws[i].id != [] && !AllZero(ws[i].id))
    {
      hide Inserted, Filled, ReadFrom, CText, GuidText, NewKeys, IdsFor, NeedsId;
      taskId, read, ws := [], [], [];
      var v := Parse(payload);
      if !TaskReadable(v) { return false, taskId, read, ws; }
      var id := OrEmpty(TextAt(v, Id));
      NeedsIdMeaning(id);
      if NeedsId(id) { id := DrawId(); }
      NeedsIdMeaning(id);
      taskId := id;
      var list := ReadList(v);
      read := list;
      if CText(id) in tasks { return false, taskId, read, ws; }
      tasks := tasks + {CText(id)};
      ok, ws := InsertAll(list, id);
    }

    /** Replaces the windows of a task if the request has a list of them. The old ones are gone
        even if the insertion of the new ones fails half way. */
    method HandleUpdateTask(payload: Text)
      returns (ok: bool, ghost read: seq<Window>, ghost ws: seq<Window>)
      requires Valid()
      modifies `table, `drawn
      ensures Valid()
      ensures var v := ParseValue(payload).value;
              var taskId := OrEmpty(TextAt(v, Id));
              && (!TaskReadable(v) ==> !ok && table == old(table))
              && (TaskReadable(v) && ListSent(v).None? ==> ok && table == old(table))
              && (TaskReadable(v) && ListSent(v).Some? ==>
                   && ReadFrom(fmt, v, read) && Filled(read, ws, taskId) && (ok <==> |ws| == |read|)
                   && Inserted(fmt, Without(old(table), CText(taskId)), ws, table)
                   && (forall i | 0 <= i < |ws| :: ws[i].id != [] && !AllZero(ws[i].id))
                   && (ok <==>
                        && NewKeys(Without(old(table), CText(taskId)), IdsFor(read, guids, old(drawn)))
                        && (read == [] || CText(taskId) in tasks)))
    {
      hide Inserted, Filled, ReadFrom, CText, GuidText, NewKeys, IdsFor, NeedsId;
      read, ws := [], [];
      var v := Parse(payload);
      if !TaskReadable(v) { return false, read, ws; }
      var id := OrEmpty(TextAt(v, Id));
      if ListSent(v).None? { return true, read, ws; }
      DeleteTimeWindows(id);
      var list := ReadList(v);
      read := list;
      ok, ws := InsertAll(list, id);
    }

    /** Rows come in any order. A row whose columns do not hold what they should fails the
        request. */
    method GetTimeWindows(taskId: Text) returns (found: Option<seq<Window>>, ghost order: seq<Text>)
      ensures found.Some? ==> LoadedInOrder(table, taskId, order, found.value)
      ensures found.None? ==> Unreadable(table, taskId)
    {
      hide Loaded, CText;
      var ws: seq<Window> := [];
      var keys := KeysOf(table, CText(taskId));
      var rest := keys;
      order := [];
      while rest != {}
        invariant rest <= keys && NoDuplicates(order) && Elements(order) == keys - rest && |ws| == |order|
        invariant forall i | 0 <= i < |order| :: order[i] in table && Loaded(table[order[i]], taskId) == Some(ws[i])
        decreases rest
      {
        var k :| k in rest;
        var w := LoadRow(table[k], taskId);
        if w.None? { return None, order; }
        assert k !in Elements(order);
        assert Elements(order + [k]) == Elements(order) + {k};
        order, ws, rest := order + [k], ws + [w.value], rest - {k};
      }
      found := Some(ws);
    }

    method HandleGetTimeWindows(payload: Text) returns (reply: Option<Text>, ghost order: seq<Text>, ghost ws: seq<Window>)
      ensures reply.Some? ==> LoadedInOrder(table, payload, order, ws) && ListPrinted(fmt, ws, reply.value)
      ensures reply.None? ==> Unreadable(table, payload)
    {
      hide LoadedInOrder, ListPrinted, Unreadable;
      var found;
      found, order := GetTimeWindows(payload);
      ws := [];
      if found.None? { return None, order, ws; }
      ws := found.value;
      var text := WindowListToJson(found.value, fmt);
      reply := Some(text);
    }
  }
}
