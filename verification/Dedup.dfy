/**
 The client's message store: a received message is a duplicate when the latest
 row for the same sender, receiver and text is less than 15 s away from it.
 Otherwise it is inserted, and the insertion is ignored on a clash with the
 unique index. A row's position stands for its generated id.
 */
module Dedup {
  import opened Wrappers

  const WINDOW := 15000

  datatype Row = Row(sender: int, recipient: int, group: Option<int>, content: string, time: int,
                     isRead: bool, isSent: bool, isDelivered: bool)

  /** What the two "latest matching" queries select on; the one for pairs does not look at the group. */
  datatype Query = Pair(sender: int, recipient: int, content: string) | InGroup(sender: int, group: int, content: string)

  /** A message to be received by the client of user owner. */
  datatype Incoming = Incoming(query: Query, time: int, owner: int)

  predicate Matches(q: Query, r: Row) {
    && r.sender == q.sender && r.content == q.content
    && if q.Pair? then r.recipient == q.recipient else r.group == Some(q.group)
  }

  function NewRow(e: Incoming): Row {
    match e.query
    case Pair(sender, recipient, content) => Row(sender, recipient, None, content, e.time, false, true, true)
    case InGroup(sender, group, content) => Row(sender, e.owner, Some(group), content, e.time, false, true, true)
  }

  /** Equal in every column of the unique index. */
  predicate SameSlot(a: Row, b: Row) {
    a.sender == b.sender && a.recipient == b.recipient && a.time == b.time && a.content == b.content
  }

  predicate Unique(rows: seq<Row>) {
    forall i, j :: 0 <= i < j < |rows| ==> !SameSlot(rows[i], rows[j])
  }

  predicate Taken(rows: seq<Row>, r: Row) {
    exists i :: 0 <= i < |rows| && SameSlot(rows[i], r)
  }

  /** The matching row of greatest time, the first of them on a tie. */
  function Latest(rows: seq<Row>, q: Query): (r: Option<nat>)
    ensures r.Some? ==> r.value < |rows| && Matches(q, rows[r.value])
    ensures r.Some? ==> forall j :: 0 <= j < |rows| && Matches(q, rows[j]) ==>
      rows[j].time <= rows[r.value].time && (j < r.value ==> rows[j].time < rows[r.value].time)
    ensures r.None? ==> forall j :: 0 <= j < |rows| ==> !Matches(q, rows[j])
  {
    if rows == [] then None
    else
      var n := |rows| - 1;
      var best := Latest(rows[..n], q);
      if Matches(q, rows[n]) && (best.None? || rows[best.value].time < rows[n].time) then Some(n) else best
  }

  predicate Near(a: int, b: int) {
    -WINDOW < a - b < WINDOW
  }

  function Flagged(r: Row): Row {
    r.(isSent := true, isDelivered := true)
  }

  function Insert(rows: seq<Row>, r: Row): seq<Row> {
    if Taken(rows, r) then rows else rows + [r]
  }

  /** The store after one message has been received. */
  function Receive(rows: seq<Row>, e: Incoming): seq<Row> {
    var latest := Latest(rows, e.query);
    if latest.Some? && Near(rows[latest.value].time, e.time)
    then rows[latest.value := Flagged(rows[latest.value])]
    else Insert(rows, NewRow(e))
  }

  function ReceiveAll(rows: seq<Row>, es: seq<Incoming>): seq<Row>
    decreases |es|
  {
    if es == [] then rows else ReceiveAll(Receive(rows, es[0]), es[1..])
  }

  // ---------------------------------------------------------------- the store

  class Repository {
    const userId: int
    var rows: seq<Row>

    constructor (user: int)
      ensures userId == user && rows == []
    {
      userId, rows := user, [];
    }

    method FindLatest(q: Query) returns (latest: Option<nat>)
      ensures latest == Latest(rows, q)
    {
      latest := None;
      for i := 0 to |rows|
        invariant latest == Latest(rows[..i], q)
      {
        assert rows[..i + 1][..i] == rows[..i];
        if Matches(q, rows[i]) && (latest.None? || rows[latest.value].time < rows[i].time) {
          latest := Some(i);
        }
      }
      assert rows[..|rows|] == rows;
    }

    /** Insertion with conflicts ignored. */
    method InsertMessage(r: Row)
      modifies this
      ensures rows == Insert(old(rows), r)
      ensures old(Unique(rows)) ==> Unique(rows)
    {
      for i := 0 to |rows|
        invariant rows == old(rows) && !Taken(rows[..i], r)
      {
        if SameSlot(rows[i], r) {
          return;
        }
      }
      assert rows[..|rows|] == rows;
      rows := rows + [r];
    }

    method ReceiveIncoming(e: Incoming)
      modifies this
      ensures rows == Receive(old(rows), e)
      ensures old(Unique(rows)) ==> Unique(rows)
    {
      var latest := FindLatest(e.query);
      if latest.Some? {
        var existing := rows[latest.value];
        var diff := existing.time - e.time;
        if (if diff < 0 then -diff else diff) < WINDOW {
          if !existing.isSent || !existing.isDelivered {
            rows := rows[latest.value := existing.(isSent := true, isDelivered := true)];
          }
          return;
        }
      }
      InsertMessage(NewRow(e));
    }

    method ReceiveMessage(sender: int, content: string, time: int, groupId: Option<int>, recipientId: Option<int>)
      modifies this
      ensures rows == Receive(old(rows), Incoming(
        if groupId.Some? then InGroup(sender, groupId.value, content)
        else Pair(sender, if recipientId.Some? then recipientId.value else userId, content), time, userId))
      ensures old(Unique(rows)) ==> Unique(rows)
    {
      if groupId.Some? {
        ReceiveIncoming(Incoming(InGroup(sender, groupId.value, content), time, userId));
      } else {
        var target := if recipientId.Some? then recipientId.value else userId;
        ReceiveIncoming(Incoming(Pair(sender, target, content), time, userId));
      }
    }

    method ReceiveHistoryMessage(sender: int, recipient: int, content: string, time: int)
      modifies this
      ensures rows == Receive(old(rows), Incoming(Pair(sender, recipient, content), time, userId))
      ensures old(Unique(rows)) ==> Unique(rows)
    {
      ReceiveIncoming(Incoming(Pair(sender, recipient, content), time, userId));
    }

    /** A whole history reply, in the order it lists the messages. */
    method LoadHistory(batch: seq<Incoming>)
      modifies this
      ensures rows == ReceiveAll(old(rows), batch)
      ensures old(Unique(rows)) ==> Unique(rows)
    {
      for i := 0 to |batch|
        invariant ReceiveAll(rows, batch[i..]) == ReceiveAll(old(rows), batch)
        invariant old(Unique(rows)) ==> Unique(rows)
      {
        assert batch[i..][0] == batch[i] && batch[i..][1..] == batch[i + 1..];
        ReceiveIncoming(batch[i]);
      }
    }
  }

  // ---------------------------------------------------------------- what one message does

  /** The latest row is the one the query's conditions single out. */
  lemma LatestIs(rows: seq<Row>, q: Query, i: nat)
    requires i < |rows| && Matches(q, rows[i])
    requires forall j :: 0 <= j < |rows| && Matches(q, rows[j]) ==>
      rows[j].time <= rows[i].time && (j < i ==> rows[j].time < rows[i].time)
    ensures Latest(rows, q) == Some(i)
  {}

  /** Nothing but the two flags differs, row by row, and the flags only go up. */
  ghost predicate Grows(a: seq<Row>, b: seq<Row>) {
    && |a| <= |b|
    && forall i :: 0 <= i < |a| ==> b[i] == a[i] || b[i] == Flagged(a[i])
  }

  lemma ReceiveGrows(rows: seq<Row>, e: Incoming)
    ensures Grows(rows, Receive(rows, e))
    ensures Unique(rows) ==> Unique(Receive(rows, e))
  {}

  lemma FlagTwice(rows: seq<Row>, e: Incoming)
    requires var latest := Latest(rows, e.query); latest.Some? && Near(rows[latest.value].time, e.time)
    ensures Receive(Receive(rows, e), e) == Receive(rows, e)
  {
    LatestIs(Receive(rows, e), e.query, Latest(rows, e.query).value);
  }

  lemma InsertTwice(rows: seq<Row>, e: Incoming)
    requires var latest := Latest(rows, e.query); !(latest.Some? && Near(rows[latest.value].time, e.time))
    requires !Taken(rows, NewRow(e))
    ensures Receive(rows + [NewRow(e)], e) == rows + [NewRow(e)]
  {
    var latest, after := Latest(rows, e.query), rows + [NewRow(e)];
    if latest.Some? && e.time < rows[latest.value].time {
      LatestIs(after, e.query, latest.value);
      assert SameSlot(after[|rows|], NewRow(e));
    } else {
      LatestIs(after, e.query, |rows|);
    }
  }

  /** A second copy of a message changes nothing. */
  lemma ReceiveTwice(rows: seq<Row>, e: Incoming)
    ensures Receive(Receive(rows, e), e) == Receive(rows, e)
  {
    var latest := Latest(rows, e.query);
    if latest.Some? && Near(rows[latest.value].time, e.time) {
      FlagTwice(rows, e);
    } else if !Taken(rows, NewRow(e)) {
      InsertTwice(rows, e);
    }
  }

  /** A message that would change nothing. */
  predicate Settled(rows: seq<Row>, e: Incoming) {
    Receive(rows, e) == rows
  }

  // ---------------------------------------------------------------- loading a batch twice

  predicate AllSettled(rows: seq<Row>, es: seq<Incoming>) {
    forall k :: 0 <= k < |es| ==> Settled(rows, es[k])
  }

  /** No message is later than an earlier one in the list. */
  predicate NewestFirst(es: seq<Incoming>) {
    forall i, j :: 0 <= i < j < |es| ==> es[j].time <= es[i].time
  }

  predicate AllPairs(es: seq<Incoming>) {
    forall k :: 0 <= k < |es| ==> es[k].query.Pair?
  }

  /** A message that is settled for a pair is before the end of the latest row's window. */
  lemma SettledBefore(rows: seq<Row>, e: Incoming)
    requires e.query.Pair? && Settled(rows, e)
    ensures var latest := Latest(rows, e.query);
            latest.Some? && e.time < rows[latest.value].time + WINDOW
  {
    var latest := Latest(rows, e.query);
    if latest.None? || !Near(rows[latest.value].time, e.time) {
      var j :| 0 <= j < |rows| && SameSlot(rows[j], NewRow(e));
      assert Matches(e.query, rows[j]);
    }
  }

  /** Later messages of a batch leave the settled ones settled, as long as they are not newer. */
  lemma SettledKept(rows: seq<Row>, m: Incoming, e: Incoming)
    requires Unique(rows) && m.query.Pair? && e.query.Pair? && Settled(rows, m)
    requires m.query == e.query ==> e.time <= m.time
    ensures Settled(Receive(rows, e), m)
  {
    SettledBefore(rows, m);
    var latest, after := Latest(rows, m.query).value, Receive(rows, e);
    ReceiveGrows(rows, e);
    LatestIs(after, m.query, latest);
    if !Near(rows[latest].time, m.time) {
      var j :| 0 <= j < |rows| && SameSlot(rows[j], NewRow(m));
      assert SameSlot(after[j], NewRow(m));
    }
  }

  lemma {:induction false} SettledThrough(rows: seq<Row>, m: Incoming, es: seq<Incoming>)
    requires Unique(rows) && m.query.Pair? && AllPairs(es) && Settled(rows, m)
    requires forall k :: 0 <= k < |es| && es[k].query == m.query ==> es[k].time <= m.time
    ensures Settled(ReceiveAll(rows, es), m)
    decreases |es|
  {
    if es != [] {
      SettledKept(rows, m, es[0]);
      ReceiveGrows(rows, es[0]);
      SettledThrough(Receive(rows, es[0]), m, es[1..]);
    }
  }

  lemma {:induction false} NewestFirstSettles(rows: seq<Row>, es: seq<Incoming>)
    requires Unique(rows) && AllPairs(es) && NewestFirst(es)
    ensures AllSettled(ReceiveAll(rows, es), es)
    decreases |es|
  {
    if es != [] {
      var next := Receive(rows, es[0]);
      ReceiveTwice(rows, es[0]);
      ReceiveGrows(rows, es[0]);
      SettledThrough(next, es[0], es[1..]);
      NewestFirstSettles(next, es[1..]);
      forall k | 0 <= k < |es| ensures Settled(ReceiveAll(rows, es), es[k]) {
        if k > 0 { assert es[k] == es[1..][k - 1]; }
      }
    }
  }

  /** How many rows there are, and how many flags are up: what receiving never lowers. */
  function Weight(rows: seq<Row>): nat {
    if rows == [] then 0
    else Weight(rows[..|rows| - 1]) + 1 + (if rows[|rows| - 1].isSent then 1 else 0) + (if rows[|rows| - 1].isDelivered then 1 else 0)
  }

  lemma WeightSnoc(rows: seq<Row>, r: Row)
    ensures Weight(rows + [r]) == Weight(rows) + 1 + (if r.isSent then 1 else 0) + (if r.isDelivered then 1 else 0)
  {
    assert (rows + [r])[..|rows|] == rows;
  }

  lemma {:induction false} GrowsWeight(a: seq<Row>, b: seq<Row>)
    requires Grows(a, b)
    ensures Weight(a) <= Weight(b) && (Weight(a) == Weight(b) ==> a == b)
    decreases |b|
  {
    hide Weight;
    if b != [] {
      var n := |b| - 1;
      assert b == b[..n] + [b[n]];
      WeightSnoc(b[..n], b[n]);
      if n == |a| - 1 {
        assert a == a[..n] + [a[n]];
        WeightSnoc(a[..n], a[n]);
        GrowsWeight(a[..n], b[..n]);
      } else {
        GrowsWeight(a, b[..n]);
      }
    }
  }

  lemma {:induction false} ReceiveAllWeight(rows: seq<Row>, es: seq<Incoming>)
    ensures Weight(rows) <= Weight(ReceiveAll(rows, es))
    decreases |es|
  {
    if es != [] {
      ReceiveGrows(rows, es[0]);
      GrowsWeight(rows, Receive(rows, es[0]));
      ReceiveAllWeight(Receive(rows, es[0]), es[1..]);
    }
  }

  /** Loading a batch leaves the store as it is if and only if each of its messages alone would. */
  lemma {:induction false} LoadFixpoint(rows: seq<Row>, es: seq<Incoming>)
    ensures ReceiveAll(rows, es) == rows <==> AllSettled(rows, es)
    decreases |es|
  {
    if es != [] {
      var next := Receive(rows, es[0]);
      LoadFixpoint(rows, es[1..]);
      if next == rows {
        forall k | 0 <= k < |es| && AllSettled(rows, es[1..]) ensures Settled(rows, es[k]) {
          if k > 0 { assert es[k] == es[1..][k - 1]; }
        }
      } else {
        ReceiveGrows(rows, es[0]);
        GrowsWeight(rows, next);
        ReceiveAllWeight(next, es[1..]);
        assert !Settled(rows, es[0]);
      }
    }
  }

  /** Loading a newest-first batch of direct messages a second time changes nothing, whatever the store held. */
  lemma NewestFirstTwice(rows: seq<Row>, es: seq<Incoming>)
    requires Unique(rows) && AllPairs(es) && NewestFirst(es)
    ensures ReceiveAll(ReceiveAll(rows, es), es) == ReceiveAll(rows, es)
  {
    NewestFirstSettles(rows, es);
    LoadFixpoint(ReceiveAll(rows, es), es);
  }

  /** The latest row is near the message, or the message has a row of its own. */
  predicate Kept(rows: seq<Row>, e: Incoming) {
    var latest := Latest(rows, e.query);
    (latest.Some? && Near(rows[latest.value].time, e.time)) || Taken(rows, NewRow(e))
  }

  /** If the latest row is near the message, it is flagged. */
  predicate FlaggedIfNear(rows: seq<Row>, e: Incoming) {
    var latest := Latest(rows, e.query);
    latest.Some? && Near(rows[latest.value].time, e.time) ==> rows[latest.value] == Flagged(rows[latest.value])
  }

  lemma FlaggedAtOnce(rows: seq<Row>, m: Incoming)
    ensures FlaggedIfNear(Receive(rows, m), m)
  {
    ReceiveTwice(rows, m);
  }

  lemma FlaggedKept(rows: seq<Row>, m: Incoming, e: Incoming)
    requires m.query.Pair? && FlaggedIfNear(rows, m) && Latest(rows, m.query).Some?
    ensures FlaggedIfNear(Receive(rows, e), m) && Latest(Receive(rows, e), m.query).Some?
  {
    var latest, after := Latest(rows, m.query).value, Receive(rows, e);
    ReceiveGrows(rows, e);
    assert Matches(m.query, after[latest]);
    if |after| > |rows| && Matches(m.query, after[|rows|]) && rows[latest].time < after[|rows|].time {
      LatestIs(after, m.query, |rows|);
    } else {
      LatestIs(after, m.query, latest);
    }
  }

  lemma {:induction false} FlaggedThrough(rows: seq<Row>, m: Incoming, es: seq<Incoming>)
    requires m.query.Pair? && FlaggedIfNear(rows, m) && Latest(rows, m.query).Some?
    ensures FlaggedIfNear(ReceiveAll(rows, es), m)
    decreases |es|
  {
    if es != [] {
      FlaggedKept(rows, m, es[0]);
      FlaggedThrough(Receive(rows, es[0]), m, es[1..]);
    }
  }

  lemma SomeLatest(rows: seq<Row>, m: Incoming)
    requires m.query.Pair?
    ensures Latest(Receive(rows, m), m.query).Some?
  {
    ReceiveTwice(rows, m);
    SettledBefore(Receive(rows, m), m);
  }

  lemma {:induction false} LoadFlags(rows: seq<Row>, es: seq<Incoming>, k: nat)
    requires AllPairs(es) && k < |es|
    ensures FlaggedIfNear(ReceiveAll(rows, es), es[k])
    decreases |es|
  {
    var next := Receive(rows, es[0]);
    if k == 0 {
      FlaggedAtOnce(rows, es[0]);
      SomeLatest(rows, es[0]);
      FlaggedThrough(next, es[0], es[1..]);
    } else {
      LoadFlags(next, es[1..], k - 1);
    }
  }

  /**
   For a batch in any order, a second load changes nothing if and only if every
   message is still near the latest row of the loaded store or has a row of its own.
   */
  lemma LoadTwiceIff(rows: seq<Row>, es: seq<Incoming>)
    requires AllPairs(es)
    ensures var loaded := ReceiveAll(rows, es);
            ReceiveAll(loaded, es) == loaded <==> forall k :: 0 <= k < |es| ==> Kept(loaded, es[k])
  {
    var loaded := ReceiveAll(rows, es);
    LoadFixpoint(loaded, es);
    forall k | 0 <= k < |es| ensures Settled(loaded, es[k]) <==> Kept(loaded, es[k]) {
      LoadFlags(rows, es, k);
    }
  }

  // ---------------------------------------------------------------- the same condition before the first load

  function LatestTime(rows: seq<Row>, q: Query): Option<int> {
    var latest := Latest(rows, q);
    if latest.None? then None else Some(rows[latest.value].time)
  }

  /** The latest time of a query moves only to a message at least 15 s after it. */
  function Advance(at: Option<int>, e: Incoming, q: Query): Option<int> {
    if e.query == q && (at.None? || e.time >= at.value + WINDOW) then Some(e.time) else at
  }

  function Track(at: Option<int>, es: seq<Incoming>, q: Query): Option<int>
    decreases |es|
  {
    if es == [] then at else Track(Advance(at, es[0], q), es[1..], q)
  }

  predicate NearTo(at: Option<int>, time: int) {
    at.Some? && Near(at.value, time)
  }

  /** A message later than every row of its pair finds its slot free. */
  lemma LaterIsFree(rows: seq<Row>, e: Incoming)
    requires e.query.Pair?
    requires var at := LatestTime(rows, e.query); at.None? || at.value < e.time
    ensures !Taken(rows, NewRow(e))
  {
    forall i | 0 <= i < |rows| ensures !SameSlot(rows[i], NewRow(e)) {
      assert SameSlot(rows[i], NewRow(e)) ==> Matches(e.query, rows[i]);
    }
  }

  lemma TrackMoves(rows: seq<Row>, e: Incoming)
    requires e.query.Pair?
    requires var at := LatestTime(rows, e.query); at.None? || e.time >= at.value + WINDOW
    ensures LatestTime(Receive(rows, e), e.query) == Some(e.time)
  {
    LaterIsFree(rows, e);
    assert Receive(rows, e) == rows + [NewRow(e)];
    hide Receive, Taken;
    LatestIs(rows + [NewRow(e)], e.query, |rows|);
  }

  lemma TrackStays(rows: seq<Row>, e: Incoming, q: Query)
    requires e.query.Pair? && q.Pair?
    requires e.query == q ==> LatestTime(rows, q).Some? && e.time < LatestTime(rows, q).value + WINDOW
    ensures LatestTime(Receive(rows, e), q) == LatestTime(rows, q)
  {
    var latest := Latest(rows, q);
    ReceiveGrows(rows, e);
    if latest.Some? { LatestIs(Receive(rows, e), q, latest.value); }
  }

  lemma TrackStep(rows: seq<Row>, e: Incoming, q: Query)
    requires e.query.Pair? && q.Pair?
    ensures LatestTime(Receive(rows, e), q) == Advance(LatestTime(rows, q), e, q)
  {
    hide LatestTime, Receive;
    var at := LatestTime(rows, q);
    if e.query == q && (at.None? || e.time >= at.value + WINDOW) {
      TrackMoves(rows, e);
    } else {
      TrackStays(rows, e, q);
    }
  }

  lemma {:induction false} TrackRun(rows: seq<Row>, es: seq<Incoming>, q: Query)
    requires AllPairs(es) && q.Pair?
    ensures LatestTime(ReceiveAll(rows, es), q) == Track(LatestTime(rows, q), es, q)
    decreases |es|
  {
    hide LatestTime, Advance;
    if es != [] {
      TrackStep(rows, es[0], q);
      TrackRun(Receive(rows, es[0]), es[1..], q);
    }
  }

  /** Message j takes r's slot: at its turn it is not near the latest time of its query. */
  predicate TakesSlot(rows: seq<Row>, es: seq<Incoming>, j: nat, r: Row)
    requires j < |es|
  {
    SameSlot(NewRow(es[j]), r) && !NearTo(Track(LatestTime(rows, es[j].query), es[..j], es[j].query), es[j].time)
  }

  lemma TakenStep(rows: seq<Row>, e: Incoming, r: Row)
    ensures Taken(Receive(rows, e), r) <==>
            Taken(rows, r) || (SameSlot(NewRow(e), r) && !NearTo(LatestTime(rows, e.query), e.time))
  {
    var after := Receive(rows, e);
    ReceiveGrows(rows, e);
    if Taken(rows, r) {
      var i :| 0 <= i < |rows| && SameSlot(rows[i], r);
      assert SameSlot(after[i], r);
    } else if SameSlot(NewRow(e), r) && !NearTo(LatestTime(rows, e.query), e.time) {
      assert !Taken(rows, NewRow(e));
      assert SameSlot(after[|rows|], r);
    }
  }

  lemma TakesSlotTail(rows: seq<Row>, es: seq<Incoming>, j: nat, r: Row)
    requires AllPairs(es) && j + 1 < |es|
    ensures TakesSlot(rows, es, j + 1, r) <==> TakesSlot(Receive(rows, es[0]), es[1..], j, r)
  {
    var q := es[j + 1].query;
    hide LatestTime, Advance, NearTo;
    TrackStep(rows, es[0], q);
    assert es[..j + 1][0] == es[0] && es[..j + 1][1..] == es[1..][..j];
  }

  lemma {:induction false} TakenRun(rows: seq<Row>, es: seq<Incoming>, r: Row)
    requires AllPairs(es)
    ensures Taken(ReceiveAll(rows, es), r) <==> Taken(rows, r) || exists j: nat :: j < |es| && TakesSlot(rows, es, j, r)
    decreases |es|
  {
    hide Taken, TakesSlot;
    if es != [] {
      var next, rest := Receive(rows, es[0]), es[1..];
      TakenRun(next, rest, r);
      TakenStep(rows, es[0], r);
      FirstTakesSlot(rows, es, r);
      if j: nat :| j < |rest| && TakesSlot(next, rest, j, r) {
        TakesSlotTail(rows, es, j, r);
      }
      if j: nat :| j < |es| && TakesSlot(rows, es, j, r) {
        if j > 0 { TakesSlotTail(rows, es, j - 1, r); }
      }
    }
  }

  lemma FirstTakesSlot(rows: seq<Row>, es: seq<Incoming>, r: Row)
    requires es != []
    ensures TakesSlot(rows, es, 0, r) <==>
            SameSlot(NewRow(es[0]), r) && !NearTo(LatestTime(rows, es[0].query), es[0].time)
  {
    assert es[..0] == [];
  }

  /**
   Message k of a batch will be kept, judged by the store before the load: it is
   near the latest time its query ends at, or its slot is taken already, or a
   message of the batch takes it.
   */
  predicate Stays(rows: seq<Row>, es: seq<Incoming>, k: nat)
    requires k < |es|
  {
    var q := es[k].query;
    || NearTo(Track(LatestTime(rows, q), es, q), es[k].time)
    || Taken(rows, NewRow(es[k]))
    || exists j: nat :: j < |es| && TakesSlot(rows, es, j, NewRow(es[k]))
  }

  /** For a batch in any order, store and batch decide before the first load whether a second one will change anything. */
  lemma LoadTwiceFromStart(rows: seq<Row>, es: seq<Incoming>)
    requires AllPairs(es)
    ensures ReceiveAll(ReceiveAll(rows, es), es) == ReceiveAll(rows, es) <==>
            forall k :: 0 <= k < |es| ==> Stays(rows, es, k)
  {
    hide Stays, Kept;
    LoadTwiceIff(rows, es);
    forall k | 0 <= k < |es| ensures Kept(ReceiveAll(rows, es), es[k]) <==> Stays(rows, es, k) {
      KeptIffStays(rows, es, k);
    }
  }

  lemma KeptIffStays(rows: seq<Row>, es: seq<Incoming>, k: nat)
    requires AllPairs(es) && k < |es|
    ensures Kept(ReceiveAll(rows, es), es[k]) <==> Stays(rows, es, k)
  {
    hide Taken, TakesSlot;
    TrackRun(rows, es, es[k].query);
    TakenRun(rows, es, NewRow(es[k]));
  }

  // ---------------------------------------------------------------- the order matters

  lemma FirstThenRest(rows: seq<Row>, e: Incoming, es: seq<Incoming>)
    ensures ReceiveAll(rows, [e] + es) == ReceiveAll(Receive(rows, e), es)
  {
    assert ([e] + es)[1..] == es;
  }

  function OldestFirst(q: Query): seq<Incoming> {
    [Incoming(q, 0, 0)] + ([Incoming(q, 10000, 0)] + ([Incoming(q, 20000, 0)] + ([Incoming(q, 40000, 0)] + [])))
  }

  function ThreeRows(q: Query): (rows: seq<Row>)
    ensures |rows| == 3
  {
    [NewRow(Incoming(q, 0, 0)), NewRow(Incoming(q, 20000, 0)), NewRow(Incoming(q, 40000, 0))]
  }

  lemma OldestFirstStart(q: Query)
    requires q.Pair?
    ensures var es, three := OldestFirst(q), ThreeRows(q);
            Receive([], es[0]) == three[..1] && Receive(three[..1], es[1]) == three[..1]
  {
    LatestIs(ThreeRows(q)[..1], q, 0);
  }

  lemma OldestFirstEnd(q: Query)
    requires q.Pair?
    ensures var es, three := OldestFirst(q), ThreeRows(q);
            Receive(three[..1], es[2]) == three[..2] && Receive(three[..2], es[3]) == three
  {
    var one, two := ThreeRows(q)[..1], ThreeRows(q)[..2];
    LatestIs(one, q, 0);
    LatestIs(two, q, 1);
    assert !Taken(one, NewRow(Incoming(q, 20000, 0)));
    assert !Taken(two, NewRow(Incoming(q, 40000, 0)));
    hide Taken, Latest;
    assert one + [NewRow(Incoming(q, 20000, 0))] == two;
    assert two + [NewRow(Incoming(q, 40000, 0))] == ThreeRows(q);
  }

  lemma OldestFirstLoaded(q: Query)
    requires q.Pair?
    ensures ReceiveAll([], OldestFirst(q)) == ThreeRows(q)
  {
    hide Receive, ThreeRows;
    var a, b, c, d := Incoming(q, 0, 0), Incoming(q, 10000, 0), Incoming(q, 20000, 0), Incoming(q, 40000, 0);
    var three := ThreeRows(q);
    OldestFirstStart(q);
    OldestFirstEnd(q);
    FirstThenRest([], a, [b] + ([c] + ([d] + [])));
    FirstThenRest(three[..1], b, [c] + ([d] + []));
    FirstThenRest(three[..1], c, [d] + []);
    FirstThenRest(three[..2], d, []);
  }

  lemma TenSecondsLost(q: Query)
    requires q.Pair?
    ensures !Kept(ThreeRows(q), Incoming(q, 10000, 0))
  {
    LatestIs(ThreeRows(q), q, 2);
  }

  /** One text at 0, 10, 20 and 40 s, listed oldest first: the second load changes the store. */
  lemma OldestFirstChanges(q: Query)
    requires q.Pair?
    ensures ReceiveAll(ReceiveAll([], OldestFirst(q)), OldestFirst(q)) != ReceiveAll([], OldestFirst(q))
  {
    hide Kept, ReceiveAll, ThreeRows;
    OldestFirstLoaded(q);
    TenSecondsLost(q);
    LoadTwiceIff([], OldestFirst(q));
    assert !Kept(ThreeRows(q), OldestFirst(q)[1]);
  }

  // ---------------------------------------------------------------- the order of a history reply

  function Reversed<T>(s: seq<T>): (r: seq<T>)
    ensures |r| == |s| && forall i :: 0 <= i < |s| ==> r[i] == s[|s| - 1 - i]
  {
    seq(|s|, i requires 0 <= i < |s| => s[|s| - 1 - i])
  }

  /** The server reverses the selected rows once when it reads them and once more when it lists them. */
  method HistoryReply(selected: seq<Incoming>) returns (items: seq<Incoming>)
    ensures items == selected
  {
    var messages := Reversed(selected);
    items := [];
    for i := 0 to |messages|
      invariant items == selected[..i]
    {
      items := items + [messages[|messages| - 1 - i]];
    }
  }

  /** A client that asks for the same conversation twice holds what it held after the first reply. */
  method LoadConversationTwice(store: Repository, selected: seq<Incoming>)
    requires Unique(store.rows) && AllPairs(selected) && NewestFirst(selected)
    modifies store
    ensures store.rows == ReceiveAll(old(store.rows), selected)
  {
    var first := HistoryReply(selected);
    store.LoadHistory(first);
    var second := HistoryReply(selected);
    NewestFirstTwice(old(store.rows), selected);
    store.LoadHistory(second);
  }

  // ---------------------------------------------------------------- coverage

  /** Some row answers for the message. */
  predicate Covered(rows: seq<Row>, e: Incoming) {
    exists i :: 0 <= i < |rows| && Matches(e.query, rows[i]) && Near(rows[i].time, e.time)
  }

  lemma CoveredKept(rows: seq<Row>, m: Incoming, e: Incoming)
    requires Covered(rows, m)
    ensures Covered(Receive(rows, e), m)
  {
    var i :| 0 <= i < |rows| && Matches(m.query, rows[i]) && Near(rows[i].time, m.time);
    ReceiveGrows(rows, e);
    var after := Receive(rows, e);
    assert Matches(m.query, after[i]) && Near(after[i].time, m.time);
  }

  lemma {:induction false} CoveredThrough(rows: seq<Row>, m: Incoming, es: seq<Incoming>)
    requires Covered(rows, m)
    ensures Covered(ReceiveAll(rows, es), m)
    decreases |es|
  {
    if es != [] {
      CoveredKept(rows, m, es[0]);
      CoveredThrough(Receive(rows, es[0]), m, es[1..]);
    }
  }

  /** Receiving covers a message unless no row did before and the unique index refuses it one. */
  lemma CoveredIff(rows: seq<Row>, e: Incoming)
    ensures Covered(Receive(rows, e), e) <==> Covered(rows, e) || !Taken(rows, NewRow(e))
  {
    if Covered(rows, e) {
      CoveredKept(rows, e, e);
    } else if !Taken(rows, NewRow(e)) {
      var after := Receive(rows, e);
      assert after == rows + [NewRow(e)];
      assert Matches(e.query, after[|rows|]) && Near(after[|rows|].time, e.time);
    }
  }

  /** The index never refuses a message between two users. */
  lemma PairCovered(rows: seq<Row>, e: Incoming)
    requires e.query.Pair?
    ensures Covered(Receive(rows, e), e)
  {
    CoveredIff(rows, e);
    if Taken(rows, NewRow(e)) {
      var i :| 0 <= i < |rows| && SameSlot(rows[i], NewRow(e));
      assert Matches(e.query, rows[i]) && Near(rows[i].time, e.time);
    }
  }

  /** After any run of live, history and group messages, every direct message in it is covered. */
  lemma {:induction false} EveryPairCovered(rows: seq<Row>, es: seq<Incoming>, k: nat)
    requires k < |es| && es[k].query.Pair?
    ensures Covered(ReceiveAll(rows, es), es[k])
    decreases |es|
  {
    var next := Receive(rows, es[0]);
    if k == 0 {
      PairCovered(rows, es[0]);
      CoveredThrough(next, es[0], es[1..]);
    } else {
      EveryPairCovered(next, es[1..], k - 1);
    }
  }

  /** The same words sent to the user and to a group at one time: the group message is lost. */
  lemma GroupMessageLost(sender: int, group: int, content: string, time: int, owner: int)
    ensures var direct := Incoming(Pair(sender, owner, content), time, owner);
            var e := Incoming(InGroup(sender, group, content), time, owner);
            !Covered(Receive(Receive([], direct), e), e)
  {
    var direct := Incoming(Pair(sender, owner, content), time, owner);
    var e := Incoming(InGroup(sender, group, content), time, owner);
    var rows := [NewRow(direct)];
    assert Receive([], direct) == rows;
    assert SameSlot(rows[0], NewRow(e));
    CoveredIff(rows, e);
  }

  // ---------------------------------------------------------------- spacing

  predicate Spaced(rows: seq<Row>, q: Query) {
    forall i, j :: 0 <= i < j < |rows| && Matches(q, rows[i]) && Matches(q, rows[j]) ==> !Near(rows[i].time, rows[j].time)
  }

  /** Only messages that ask q make rows that match it. */
  predicate OwnRows(es: seq<Incoming>, q: Query) {
    forall k :: 0 <= k < |es| && Matches(q, NewRow(es[k])) ==> es[k].query == q
  }

  predicate NeverBack(es: seq<Incoming>) {
    forall i, j :: 0 <= i < j < |es| ==> es[i].time <= es[j].time
  }

  function Count(rows: seq<Row>, q: Query): nat {
    if rows == [] then 0 else Count(rows[..|rows| - 1], q) + if Matches(q, rows[|rows| - 1]) then 1 else 0
  }

  /** Rows for q are spaced, lie between two times, and are as few as the spacing allows. */
  predicate Sparse(rows: seq<Row>, q: Query, from: int, to: int) {
    var latest := Latest(rows, q);
    && Spaced(rows, q)
    && (latest.None? ==> Count(rows, q) == 0)
    && (latest.Some? ==> rows[latest.value].time <= to && (Count(rows, q) - 1) * WINDOW <= rows[latest.value].time - from)
  }

  lemma {:induction false} CountSame(a: seq<Row>, b: seq<Row>, q: Query)
    requires |a| == |b| && Grows(a, b)
    ensures Count(a, q) == Count(b, q)
  {
    if a != [] { CountSame(a[..|a| - 1], b[..|b| - 1], q); }
  }

  lemma SparseSame(rows: seq<Row>, after: seq<Row>, q: Query, from: int, to: int)
    requires Sparse(rows, q, from, to) && |after| == |rows| && Grows(rows, after)
    ensures Sparse(after, q, from, to)
  {
    CountSame(rows, after, q);
    var latest := Latest(rows, q);
    if latest.Some? { LatestIs(after, q, latest.value); }
  }

  lemma SparseOther(rows: seq<Row>, r: Row, q: Query, from: int, to: int)
    requires Sparse(rows, q, from, to) && !Matches(q, r)
    ensures Sparse(rows + [r], q, from, to)
  {
    var latest, after := Latest(rows, q), rows + [r];
    assert after[..|rows|] == rows;
    if latest.Some? { LatestIs(after, q, latest.value); }
  }

  lemma SparseMore(rows: seq<Row>, r: Row, q: Query, from: int, to: int)
    requires Sparse(rows, q, from, to) && Matches(q, r) && from <= r.time && to <= r.time
    requires var latest := Latest(rows, q); latest.Some? ==> !Near(rows[latest.value].time, r.time)
    ensures Sparse(rows + [r], q, from, r.time)
  {
    var after := rows + [r];
    assert after[..|rows|] == rows;
    LatestIs(after, q, |rows|);
  }

  /** The message gets a row of its own. */
  predicate Inserted(rows: seq<Row>, e: Incoming) {
    var latest := Latest(rows, e.query);
    !(latest.Some? && Near(rows[latest.value].time, e.time)) && !Taken(rows, NewRow(e))
  }

  /** A message that asks another query gets a row that matches q, near the latest one. */
  predicate Crowds(rows: seq<Row>, e: Incoming, q: Query) {
    var latest := Latest(rows, q);
    && e.query != q && Matches(q, NewRow(e)) && Inserted(rows, e)
    && latest.Some? && Near(rows[latest.value].time, e.time)
  }

  predicate Uncrowded(rows: seq<Row>, es: seq<Incoming>, q: Query)
    decreases |es|
  {
    es == [] || (!Crowds(rows, es[0], q) && Uncrowded(Receive(rows, es[0]), es[1..], q))
  }

  lemma SparseStep(rows: seq<Row>, q: Query, e: Incoming, from: int, to: int)
    requires Sparse(rows, q, from, to) && from <= e.time && to <= e.time && !Crowds(rows, e, q)
    ensures Sparse(Receive(rows, e), q, from, e.time)
  {
    hide Spaced, Count;
    ReceiveGrows(rows, e);
    if |Receive(rows, e)| == |rows| {
      SparseSame(rows, Receive(rows, e), q, from, to);
    } else if Matches(q, NewRow(e)) {
      SparseMore(rows, NewRow(e), q, from, to);
    } else {
      SparseOther(rows, NewRow(e), q, from, to);
    }
  }

  lemma {:induction false} SparseRun(rows: seq<Row>, q: Query, es: seq<Incoming>, from: int, to: int)
    requires Sparse(rows, q, from, to) && Uncrowded(rows, es, q) && NeverBack(es)
    requires forall k :: 0 <= k < |es| ==> from <= es[k].time && to <= es[k].time
    ensures Sparse(ReceiveAll(rows, es), q, from, if es == [] then to else es[|es| - 1].time)
    decreases |es|
  {
    hide Sparse, Crowds;
    if es != [] {
      SparseStep(rows, q, es[0], from, to);
      SparseRun(Receive(rows, es[0]), q, es[1..], from, es[0].time);
    }
  }

  lemma CrowdedStep(rows: seq<Row>, q: Query, e: Incoming)
    requires Crowds(rows, e, q)
    ensures !Spaced(Receive(rows, e), q)
  {
    var latest, after := Latest(rows, q).value, Receive(rows, e);
    assert after == rows + [NewRow(e)];
    assert Matches(q, after[latest]) && Matches(q, after[|rows|]) && Near(after[latest].time, after[|rows|].time);
  }

  /** Rows never go, so two that are too close stay too close. */
  lemma UnspacedKept(rows: seq<Row>, q: Query, e: Incoming)
    requires !Spaced(rows, q)
    ensures !Spaced(Receive(rows, e), q)
  {
    var i, j :| 0 <= i < j < |rows| && Matches(q, rows[i]) && Matches(q, rows[j]) && Near(rows[i].time, rows[j].time);
    var after := Receive(rows, e);
    ReceiveGrows(rows, e);
    assert Matches(q, after[i]) && Matches(q, after[j]) && Near(after[i].time, after[j].time);
  }

  lemma {:induction false} UnspacedThrough(rows: seq<Row>, q: Query, es: seq<Incoming>)
    requires !Spaced(rows, q)
    ensures !Spaced(ReceiveAll(rows, es), q)
    decreases |es|
  {
    hide Spaced;
    if es != [] {
      UnspacedKept(rows, q, es[0]);
      UnspacedThrough(Receive(rows, es[0]), q, es[1..]);
    }
  }

  lemma {:induction false} CrowdedRun(rows: seq<Row>, q: Query, es: seq<Incoming>)
    requires !Uncrowded(rows, es, q)
    ensures !Spaced(ReceiveAll(rows, es), q)
    decreases |es|
  {
    hide Spaced, Crowds;
    if Crowds(rows, es[0], q) {
      CrowdedStep(rows, q, es[0]);
      UnspacedThrough(Receive(rows, es[0]), q, es[1..]);
    } else {
      CrowdedRun(Receive(rows, es[0]), q, es[1..]);
    }
  }

  lemma {:induction false} UncrowdedMeaning(rows: seq<Row>, q: Query, es: seq<Incoming>)
    ensures Uncrowded(rows, es, q) <==>
            forall k :: 0 <= k < |es| ==> !Crowds(ReceiveAll(rows, es[..k]), es[k], q)
    decreases |es|
  {
    hide Crowds;
    if es != [] {
      var next, rest := Receive(rows, es[0]), es[1..];
      UncrowdedMeaning(next, q, rest);
      assert ReceiveAll(rows, es[..0]) == rows;
      forall k | 0 <= k < |rest|
        ensures ReceiveAll(rows, es[..k + 1]) == ReceiveAll(next, rest[..k]) && es[k + 1] == rest[k]
      {
        assert es[..k + 1][1..] == rest[..k] && es[..k + 1][0] == es[0];
      }
      if Uncrowded(rows, es, q) {
        forall k | 0 <= k < |es| ensures !Crowds(ReceiveAll(rows, es[..k]), es[k], q) {
          if k > 0 { assert !Crowds(ReceiveAll(next, rest[..k - 1]), rest[k - 1], q); }
        }
      } else if !Crowds(rows, es[0], q) {
        var k :| 0 <= k < |rest| && Crowds(ReceiveAll(next, rest[..k]), rest[k], q);
        assert Crowds(ReceiveAll(rows, es[..k + 1]), es[k + 1], q);
      }
    }
  }

  lemma {:induction false} CountNone(rows: seq<Row>, q: Query)
    requires forall i :: 0 <= i < |rows| ==> !Matches(q, rows[i])
    ensures Count(rows, q) == 0
  {
    if rows != [] { CountNone(rows[..|rows| - 1], q); }
  }

  /**
   When times never go back, rows for one sender, receiver and text are at least
   15 s apart in the end if and only if no message of another kind ever gets such
   a row less than 15 s after the latest one; and then there are at most
   span / 15 s + 1 of them.
   */
  lemma SpacedRunIff(rows: seq<Row>, q: Query, es: seq<Incoming>)
    requires forall i :: 0 <= i < |rows| ==> !Matches(q, rows[i])
    requires NeverBack(es)
    ensures Spaced(ReceiveAll(rows, es), q) <==>
            forall k :: 0 <= k < |es| ==> !Crowds(ReceiveAll(rows, es[..k]), es[k], q)
    ensures es != [] && Spaced(ReceiveAll(rows, es), q) ==>
            Count(ReceiveAll(rows, es), q) <= (es[|es| - 1].time - es[0].time) / WINDOW + 1
  {
    hide Crowds;
    UncrowdedMeaning(rows, q, es);
    if Uncrowded(rows, es, q) {
      CountNone(rows, q);
      if es != [] { SparseRun(rows, q, es, es[0].time, es[0].time); }
    } else {
      CrowdedRun(rows, q, es);
    }
  }

  /** Where only messages that ask q make rows for it, the rows are spaced and few. */
  lemma SpacedRun(rows: seq<Row>, q: Query, es: seq<Incoming>)
    requires forall i :: 0 <= i < |rows| ==> !Matches(q, rows[i])
    requires es != [] && OwnRows(es, q) && NeverBack(es)
    ensures Spaced(ReceiveAll(rows, es), q)
    ensures Count(ReceiveAll(rows, es), q) <= (es[|es| - 1].time - es[0].time) / WINDOW + 1
  {
    SpacedRunIff(rows, q, es);
  }

  /** A run of direct messages alone makes only rows of its own queries. */
  lemma PairsOwnTheirRows(es: seq<Incoming>, q: Query)
    requires AllPairs(es) && q.Pair?
    ensures OwnRows(es, q)
  {}

  /** A group message is not held against direct ones, yet its row counts as one: the rows come closer than 15 s. */
  lemma GroupMessageCrowds(sender: int, group: int, content: string, time: int, owner: int)
    ensures var direct := Incoming(Pair(sender, owner, content), time, owner);
            var e := Incoming(InGroup(sender, group, content), time + 1, owner);
            !OwnRows([direct, e], direct.query) && !Spaced(Receive(Receive([], direct), e), direct.query)
  {
    var direct := Incoming(Pair(sender, owner, content), time, owner);
    var e := Incoming(InGroup(sender, group, content), time + 1, owner);
    var rows := [NewRow(direct)];
    assert Receive([], direct) == rows;
    assert Latest(rows, e.query) == None;
    assert !SameSlot(rows[0], NewRow(e));
    var after := Receive(rows, e);
    assert after == rows + [NewRow(e)];
    assert Matches(direct.query, after[0]) && Matches(direct.query, after[1]) && Near(after[0].time, after[1].time);
    assert Matches(direct.query, NewRow([direct, e][1]));
  }

  // ---------------------------------------------------------------- the window and the rows in numbers

  /** A text less than 15000 ms from the latest row of its pair adds no row; one 15000 ms later adds one. */
  lemma WindowIs15000(rows: seq<Row>, e: Incoming)
    requires e.query.Pair? && LatestTime(rows, e.query).Some?
    ensures var at := LatestTime(rows, e.query).value;
            && (-14999 <= e.time - at <= 14999 ==> |Receive(rows, e)| == |rows|)
            && (e.time - at >= 15000 ==> Receive(rows, e) == rows + [NewRow(e)])
  {
    if e.time - LatestTime(rows, e.query).value >= 15000 { LaterIsFree(rows, e); }
  }

  /** The first row of a store, of either kind: unread, sent, delivered, and a group row addressed to the reader. */
  lemma FirstRows(sender: int, recipient: int, group: int, content: string, time: int, owner: int)
    ensures Receive([], Incoming(Pair(sender, recipient, content), time, owner))
         == [Row(sender, recipient, None, content, time, false, true, true)]
    ensures Receive([], Incoming(InGroup(sender, group, content), time, owner))
         == [Row(sender, owner, Some(group), content, time, false, true, true)]
  {}

  /** A duplicate marks the latest row as sent and delivered, and changes nothing else in the store. */
  lemma DuplicateMarks(rows: seq<Row>, e: Incoming, i: nat, j: nat)
    requires Latest(rows, e.query) == Some(i) && -14999 <= e.time - rows[i].time <= 14999 && j < |rows|
    ensures var r := rows[j];
            && |Receive(rows, e)| == |rows|
            && Receive(rows, e)[j] == Row(r.sender, r.recipient, r.group, r.content, r.time, r.isRead,
                                          r.isSent || j == i, r.isDelivered || j == i)
  {}
}
