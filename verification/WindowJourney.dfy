/** A window's way from the request of one client, through the table, to another client. */
module WindowJourney {
  import opened Bytes
  import opened Common
  import opened JsonString
  import opened JsonParser
  import opened JsonPrinter
  import opened JsonSerializer
  import opened JsonValues
  import opened TimeWindows
  import opened WindowJson
  import opened WindowStore
  import opened WindowRequests
  import opened Messages

  predicate CanonicalOpt(t: Option<Text>) {
    t.Some? ==> Canonical(t.value) && t.value != []
  }

  /** What every window read from a request is like. */
  predicate WellRead(w: Window) {
    && Canonical(w.id) && CanonicalLists(w)
    && CanonicalOpt(w.startDate) && CanonicalOpt(w.endDate)
    && CanonicalOpt(w.startTime) && CanonicalOpt(w.endTime) && CanonicalOpt(w.repeatUntil)
  }

  lemma {:induction false} CollectedTextsAreCanonical(items: seq<Value>)
    requires forall i | 0 <= i < |items| :: CanonicalValue(items[i])
    ensures forall i | 0 <= i < |Collect(items, TextOf)| :: Canonical(Collect(items, TextOf)[i])
  {
    if items != [] {
      CollectedTextsAreCanonical(items[..|items| - 1]);
      assert CanonicalValue(items[|items| - 1]);
    }
  }

  lemma MemberIsCanonical(e: Value, k: Key)
    requires CanonicalValue(e)
    ensures CanonicalOpt(NonEmptyAt(e, k)) && Canonical(OrEmpty(TextAt(e, k)))
    ensures forall i | 0 <= i < |ItemsAt(e, k)| :: CanonicalValue(ItemsAt(e, k)[i])
  {
    var v := e.Get(Name(k));
    assert v.Some? ==> CanonicalValue(v.value);
  }

  lemma WindowIsWellRead(e: Value)
    requires CanonicalValue(e)
    ensures WellRead(WindowFrom(e))
  {
    hide CanonicalValue, Collect, TextAt, NonEmptyAt, ItemsAt, Canonical, Name, KindAt, NumberAt, CanonicalOpt;
    forall k: Key
      ensures CanonicalOpt(NonEmptyAt(e, k)) && Canonical(OrEmpty(TextAt(e, k)))
      ensures forall i | 0 <= i < |ItemsAt(e, k)| :: CanonicalValue(ItemsAt(e, k)[i])
    {
      MemberIsCanonical(e, k);
    }
    CollectedTextsAreCanonical(ItemsAt(e, SpecificDates));
    CollectedTextsAreCanonical(ItemsAt(e, ExactTimes));
  }

  lemma {:induction false} CollectedWindowsAreWellRead(items: seq<Value>)
    requires forall i | 0 <= i < |items| :: CanonicalValue(items[i])
    ensures forall i | 0 <= i < |Collect(items, WindowOf)| :: WellRead(Collect(items, WindowOf)[i])
  {
    hide WellRead, WindowFrom;
    if items != [] {
      CollectedWindowsAreWellRead(items[..|items| - 1]);
      if items[|items| - 1].Obj? { WindowIsWellRead(items[|items| - 1]); }
    }
  }

  /** However a request is written, the windows read from it hold canonical texts only. */
  lemma RequestsAreWellRead(fmt: Format, v: Value, read: seq<Window>)
    requires ReadFrom(fmt, v, read)
    ensures forall i | 0 <= i < |read| :: WellRead(read[i])
  {
    hide Prints, WellRead;
    if ListSent(v).Some? {
      var text :| Prints(fmt, ListSent(v).value, text) && read == WindowsIn(ParseValue(text).value);
      SerializedIsCanonical(fmt, ListSent(v).value, text);
      if ParseValue(text).value.Arr? {
        CollectedWindowsAreWellRead(ParseValue(text).value.items);
      }
    }
  }

  lemma FilledIsWellRead(r: Window, w: Window, taskId: Text)
    requires WellRead(r) && FilledOne(r, w, taskId)
    ensures WellRead(w)
  {
    hide CanonicalOpt;
    if NeedsId(r.id) {
      var g: Guid :| w.id == GuidText(g);
      AsciiIsCanonical(w.id);
    }
  }

  lemma OptSurvives(t: Option<Text>)
    requires CanonicalOpt(t)
    ensures NonEmpty(NormalOpt(COpt(t))) == t <==> NulFreeOpt(t)
  {
    if t.Some? {
      CTextIs(t.value);
      NormalFixpoints(CText(t.value));
    }
  }

  /** A well-read window looks to a client after it has been stored as it did before, exactly
      when none of its single texts holds a NUL byte. */
  lemma SurvivesIfNulFree(w: Window)
    requires WellRead(w)
    ensures Shown(NormalWindow(Kept(w))) == Shown(w) <==> NulFreeWindow(w)
  {
    CTextIs(w.id);
    NormalFixpoints(CText(w.id));
    AllNormal(w.specificDates);
    AllNormal(w.exactTimes);
    OptSurvives(w.startDate);
    OptSurvives(w.endDate);
    OptSurvives(w.startTime);
    OptSurvives(w.endTime);
    OptSurvives(w.repeatUntil);
    NonEmptyStays(w);
    hide Canonical, Normal, CText, NulFree, NulFreeOpt, NormalAll, NonEmpty, NormalOpt, COpt, CanonicalOpt, CanonicalLists;
  }

  lemma NonEmptyStays(w: Window)
    requires WellRead(w)
    ensures NonEmpty(w.startDate) == w.startDate && NonEmpty(w.endDate) == w.endDate
    ensures NonEmpty(w.startTime) == w.startTime && NonEmpty(w.endTime) == w.endTime
    ensures NonEmpty(w.repeatUntil) == w.repeatUntil
  {}

  /** The rows loaded for a task that had none before the insertion are the inserted ones. */
  lemma LoadedAreInserted(fmt: Format, a: Table, ws: seq<Window>, b: Table, taskId: Text,
                          order: seq<Text>, loaded: seq<Window>, j: nat) returns (i: nat)
    requires Inserted(fmt, a, ws, b) && KeysOf(a, CText(taskId)) == {}
    requires forall x | 0 <= x < |ws| :: ws[x].taskId == taskId
    requires LoadedInOrder(b, taskId, order, loaded) && j < |ws|
    ensures i < |order| && order[i] == CText(ws[j].id) && loaded[i] == Kept(ws[j])
  {
    hide CText, Loaded, Kept, Column;
    var k := CText(ws[j].id);
    assert k in b && StoredAs(fmt, ws[j], b[k]) && b[k].taskId == CText(taskId);
    assert k in Elements(order);
    i :| 0 <= i < |order| && order[i] == k;
    StoreThenLoad(fmt, ws[j], b[k]);
  }

  lemma NoOthersLoaded(fmt: Format, a: Table, ws: seq<Window>, b: Table, taskId: Text,
                       order: seq<Text>, loaded: seq<Window>)
    requires Inserted(fmt, a, ws, b) && KeysOf(a, CText(taskId)) == {}
    requires forall x | 0 <= x < |ws| :: ws[x].taskId == taskId
    requires LoadedInOrder(b, taskId, order, loaded)
    ensures |loaded| == |ws|
  {
    var ids := seq(|ws|, x requires 0 <= x < |ws| => CText(ws[x].id));
    KeysInserted(fmt, a, ws, b, taskId, ids);
    hide CText, Loaded, Column, StoredAs, KeysOf;
    DistinctCount(ids);
    DistinctCount(order);
  }

  lemma KeysInserted(fmt: Format, a: Table, ws: seq<Window>, b: Table, taskId: Text, ids: seq<Text>)
    requires Inserted(fmt, a, ws, b) && KeysOf(a, CText(taskId)) == {}
    requires forall x | 0 <= x < |ws| :: ws[x].taskId == taskId
    requires |ids| == |ws| && forall x | 0 <= x < |ws| :: ids[x] == CText(ws[x].id)
    ensures Elements(ids) == KeysOf(b, CText(taskId))
  {
    hide CText, Loaded, Column;
    forall k ensures k in Elements(ids) <==> k in KeysOf(b, CText(taskId)) {
      if k in KeysOf(b, CText(taskId)) {
        assert k !in KeysOf(a, CText(taskId));
        var x :| 0 <= x < |ws| && CText(ws[x].id) == k;
        assert ids[x] == k;
      }
      if k in ids {
        var x :| 0 <= x < |ids| && ids[x] == k;
        assert StoredAs(fmt, ws[x], b[k]);
      }
    }
  }

  /** The i-th window a client gets is stored under the id of `w`, and is `w` as a client sees
      it exactly if the single texts of `w` hold no NUL byte. */
  predicate Arrives(w: Window, order: seq<Text>, got: seq<Window>, i: nat) {
    && i < |got| && i < |order| && order[i] == CText(w.id)
    && (got[i] == Shown(w) <==> NulFreeWindow(w))
  }

  ghost predicate ArrivesSomewhere(w: Window, order: seq<Text>, got: seq<Window>) {
    exists i :: Arrives(w, order, got, i)
  }

  /** The whole way. The windows of a request are read, given owner and ids, stored, loaded,
      printed and read by another client, who gets as many windows as were stored; and the one
      that comes from the j-th window looks as that window would have looked at once, exactly
      if its single texts hold no NUL byte: same kind, days, dates, times and interval. */
  lemma WindowsSurvive(fmt: Format, v: Value, read: seq<Window>, ws: seq<Window>, taskId: Text, a: Table, b: Table,
                       order: seq<Text>, loaded: seq<Window>, out: Text)
    requires ReadFrom(fmt, v, read) && Filled(read, ws, taskId)
    requires Inserted(fmt, a, ws, b) && KeysOf(a, CText(taskId)) == {}
    requires LoadedInOrder(b, taskId, order, loaded) && ListPrinted(fmt, loaded, out)
    ensures var got := WindowsIn(ParseValue(out).value);
            && |got| == |ws|
            && forall j | 0 <= j < |ws| :: ArrivesSomewhere(ws[j], order, got)
  {
    hide CText, Loaded, Kept, WellRead, NulFreeWindow, Shown, NormalWindow, ListPrinted, ReadFrom;
    RequestsAreWellRead(fmt, v, read);
    forall j | 0 <= j < |ws| ensures WellRead(ws[j]) && ws[j].taskId == taskId {
      FilledIsWellRead(read[j], ws[j], taskId);
    }
    ListBack(fmt, loaded, out);
    NoOthersLoaded(fmt, a, ws, b, taskId, order, loaded);
    var got := WindowsIn(ParseValue(out).value);
    forall j | 0 <= j < |ws|
      ensures ArrivesSomewhere(ws[j], order, got)
    {
      var i := LoadedAreInserted(fmt, a, ws, b, taskId, order, loaded, j);
      SurvivesIfNulFree(ws[j]);
      assert got[i] == Shown(NormalWindow(Kept(ws[j])));
      assert Arrives(ws[j], order, got, i);
    }
  }

  /** The list reaches the client as the payload of a response, quoted once more. */
  lemma ReplyArrives(fmt: Format, loaded: seq<Window>, reply: Text, out: Text)
    requires ListPrinted(fmt, loaded, reply) && Prints(fmt, ResponseValue(Response(true, [], reply)), out)
    ensures WindowsIn(ParseValue(StringAt(ParseValue(out).value, PAYLOAD)).value) == ShownAll(loaded)
  {
    hide Prints, WindowsIn, ResponseValue, StringAt, PAYLOAD;
    PayloadKept(fmt, Response(true, [], reply), out, Arr(Relisted(fmt, loaded)));
    ListBack(fmt, loaded, reply);
  }

  // ---- requests to one server ----

  lemma SameRowsLoad(a: Table, b: Table, taskId: Text, order: seq<Text>, loaded: seq<Window>)
    requires SameRows(a, b, CText(taskId)) && LoadedInOrder(b, taskId, order, loaded)
    ensures LoadedInOrder(a, taskId, order, loaded)
  {
    hide CText, Loaded;
    forall i | 0 <= i < |order| ensures order[i] in a && a[order[i]] == b[order[i]] {
      assert order[i] in Elements(order);
    }
  }

  /** What has been inserted can be read. */
  lemma InsertedIsReadable(fmt: Format, a: Table, ws: seq<Window>, b: Table, taskId: Text)
    requires Inserted(fmt, a, ws, b) && KeysOf(a, CText(taskId)) == {}
    requires forall x | 0 <= x < |ws| :: ws[x].taskId == taskId
    ensures !Unreadable(b, taskId)
  {
    hide CText, Loaded, Column, Kept;
    forall k | k in KeysOf(b, CText(taskId)) ensures Loaded(b[k], taskId).Some? {
      assert k !in KeysOf(a, CText(taskId));
      var x :| 0 <= x < |ws| && CText(ws[x].id) == k;
      StoreThenLoad(fmt, ws[x], b[k]);
    }
  }

  lemma StillReadable(a: Table, b: Table, taskId: Text)
    requires SameRows(a, b, CText(taskId)) && !Unreadable(a, taskId)
    ensures !Unreadable(b, taskId)
  {
    hide CText, Loaded, KeysOf;
  }

  /** Any number of requests of other clients that create tasks or update others than this. */
  method OtherRequests(server: Server, owner: Text)
    requires server.Valid() && owner in server.tasks
    modifies server
    ensures server.Valid() && owner in server.tasks && SameRows(old(server.table), server.table, owner)
  {
    hide Inserted, ReadFrom, CText, SameRows, WindowRequests.Without;
    SameRowsHere(server.table, owner);
    var n: int := *;
    var i := 0;
    while i < n
      invariant server.Valid() && owner in server.tasks && SameRows(old(server.table), server.table, owner)
    {
      ghost var before := server.table;
      OtherRequest(server, owner);
      SameRowsOn(old(server.table), before, server.table, owner);
      i := i + 1;
    }
  }

  lemma SameRowsHere(t: Table, owner: Text)
    ensures SameRows(t, t, owner)
  {}

  method OtherRequest(server: Server, owner: Text)
    requires server.Valid() && owner in server.tasks
    modifies server
    ensures server.Valid() && owner in server.tasks && SameRows(old(server.table), server.table, owner)
  {
    hide Inserted, ReadFrom, CText, SameRows, WindowRequests.Without;
    var payload: Text := *;
    var create: bool := *;
    ghost var before := server.table;
    SameRowsHere(before, owner);
    if create {
      var ok, taskId;
      ghost var read, ws;
      ok, taskId, read, ws := server.HandleCreateTask(payload);
      if before != server.table { InsertedElsewhere(server.fmt, before, ws, server.table, owner); }
    } else {
      var id := OrEmpty(TextAt(ParseValue(payload).value, Id));
      if CText(id) != owner {
        var ok;
        ghost var read, ws;
        ok, read, ws := server.HandleUpdateTask(payload);
        DeletedElsewhere(before, CText(id), owner);
        if before != server.table {
          ghost var rest := WindowRequests.Without(before, CText(id));
          InsertedElsewhere(server.fmt, rest, ws, server.table, owner);
          SameRowsOn(before, rest, server.table, owner);
        }
      }
    }
  }

  /** A reply has been given, and it tells a client of each window what it would have been told
      at once, exactly if the single texts of the window hold no NUL byte. */
  ghost predicate Told(reply: Option<Text>, order: seq<Text>, ws: seq<Window>) {
    && reply.Some?
    && var got := WindowsIn(ParseValue(reply.value).value);
       |got| == |ws| && forall j | 0 <= j < |ws| :: ArrivesSomewhere(ws[j], order, got)
  }

  /** Lists the windows that a request has just stored, after others have made theirs. */
  method ListLater(server: Server, taskId: Text, ghost v: Value, ghost read: seq<Window>, ghost ws: seq<Window>,
                   ghost before: Table)
    returns (reply: Option<Text>, ghost order: seq<Text>)
    requires server.Valid() && CText(taskId) in server.tasks
    requires ReadFrom(server.fmt, v, read) && Filled(read, ws, taskId)
    requires Inserted(server.fmt, before, ws, server.table) && KeysOf(before, CText(taskId)) == {}
    modifies server
    ensures server.Valid() && Told(reply, order, ws)
  {
    hide ReadFrom, CText, Inserted, LoadedInOrder, ListPrinted, SameRows, KeysOf, Unreadable, WindowsIn, ArrivesSomewhere;
    ghost var stored := server.table;
    InsertedIsReadable(server.fmt, before, ws, stored, taskId);
    OtherRequests(server, CText(taskId));
    StillReadable(stored, server.table, taskId);
    ghost var loaded;
    reply, order, loaded := server.HandleGetTimeWindows(taskId);
    SameRowsLoad(stored, server.table, taskId, order, loaded);
    WindowsSurvive(server.fmt, v, read, ws, taskId, before, stored, order, loaded, reply.value);
  }

  /** A task that is new has no windows yet. */
  lemma NoneBefore(tasks: set<Text>, t: Table, owner: Text)
    requires owner !in tasks && forall k | k in t :: t[k].taskId in tasks
    ensures KeysOf(t, owner) == {}
  {}

  lemma NoneLeft(t: Table, owner: Text)
    ensures KeysOf(WindowRequests.Without(t, owner), owner) == {}
  {}

  /** One client creates a task with windows, others make their requests, and one more asks for
      the windows of the new task: it gets a reply with all that were stored, which are all that
      were sent exactly if the first request succeeded. */
  method CreateThenList(server: Server, payload: Text)
    returns (created: bool, taskId: Text, reply: Option<Text>,
             ghost read: seq<Window>, ghost ws: seq<Window>, ghost order: seq<Text>)
    requires server.Valid()
    modifies server
    ensures server.Valid()
    ensures var v := ParseValue(payload).value;
            TaskReadable(v) && CText(taskId) !in old(server.tasks) ==>
              && ReadFrom(server.fmt, v, read) && Filled(read, ws, taskId) && (created <==> |ws| == |read|)
              && Told(reply, order, ws)
    ensures var v := ParseValue(payload).value;
            var sent := OrEmpty(TextAt(v, Id));
            TaskReadable(v) ==>
              && taskId == (if sent == [] || AllZero(sent) then GuidText(server.guids(old(server.drawn))) else sent)
              && (CText(taskId) !in old(server.tasks) ==>
                   (created <==>
                     NewKeys(old(server.table), IdsFor(read, server.guids, old(server.drawn) + if taskId == sent then 0 else 1))))
  {
    hide ReadFrom, Filled, CText, Inserted, KeysOf, Told, NewKeys, IdsFor, NeedsId, GuidText;
    reply, order := None, [];
    var known := server.tasks;
    created, taskId, read, ws := server.HandleCreateTask(payload);
    var v := ParseValue(payload).value;
    if TaskReadable(v) && CText(taskId) !in known {
      NoneBefore(old(server.tasks), old(server.table), CText(taskId));
      reply, order := ListLater(server, taskId, v, read, ws, old(server.table));
    }
  }

  /** The same after a request that replaces the windows of a task: the old ones are gone. */
  method UpdateThenList(server: Server, payload: Text)
    returns (updated: bool, reply: Option<Text>, ghost read: seq<Window>, ghost ws: seq<Window>, ghost order: seq<Text>)
    requires server.Valid()
    modifies server
    ensures server.Valid()
    ensures var v := ParseValue(payload).value;
            var taskId := OrEmpty(TextAt(v, Id));
            TaskReadable(v) && ListSent(v).Some? && CText(taskId) in old(server.tasks) ==>
              && ReadFrom(server.fmt, v, read) && Filled(read, ws, taskId) && (updated <==> |ws| == |read|)
              && Told(reply, order, ws)
              && (updated <==>
                   NewKeys(WindowRequests.Without(old(server.table), CText(taskId)),
                           IdsFor(read, server.guids, old(server.drawn))))
  {
    hide ReadFrom, Filled, CText, Inserted, KeysOf, Told, WindowRequests.Without, NewKeys, IdsFor, NeedsId, GuidText;
    reply, order := None, [];
    updated, read, ws := server.HandleUpdateTask(payload);
    var v := ParseValue(payload).value;
    var taskId := OrEmpty(TextAt(v, Id));
    if CText(taskId) in server.tasks && TaskReadable(v) && ListSent(v).Some? {
      NoneLeft(old(server.table), CText(taskId));
      reply, order := ListLater(server, taskId, v, read, ws, WindowRequests.Without(old(server.table), CText(taskId)));
    }
  }

  /** What is read from a request is what was sent, if the list sent survives printing and
      parsing; otherwise its strings are in normal form. */
  lemma ReadAsSent(fmt: Format, v: Value, read: seq<Window>)
    requires ReadFrom(fmt, v, read) && ListSent(v).Some? && CleanValue(fmt, ListSent(v).value)
    ensures read == WindowsIn(ListSent(v).value)
  {
    var text :| Prints(fmt, ListSent(v).value, text) && read == WindowsIn(ParseValue(text).value);
    SerializeThenParse(fmt, ListSent(v).value, text);
  }
}
