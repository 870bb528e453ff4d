/** From capture rows to change events: an update arrives as a before row and an after row,
    and the sort that merges the capture instances must not tear them apart. */
module Pairing {
  import opened Options
  import opened Lsn
  import opened ChangeOrder
  import opened Sequences

  const OP_DELETE: int := 1
  const OP_INSERT: int := 2
  const OP_UPDATE_OLD: int := 3
  const OP_UPDATE_NEW: int := 4

  type Values = map<string, string>

  datatype Row = Row(
    startLSN: Lsn,
    seqval: Lsn,
    operation: int,
    committed: int,
    schema: string,
    table: string,
    values: Values)

  datatype Op = Insert | Update | Delete

  datatype Event = Event(
    schema: string,
    table: string,
    position: string,
    transaction: string,
    timestamp: int,
    op: Op,
    before: Option<Values>,
    after: Option<Values>)

  function RowKey(r: Row): Key { Key(r.startLSN, r.seqval) }

  function EventFrom(r: Row, op: Op, before: Option<Values>, after: Option<Values>): Event {
    Event(r.schema, r.table, Position(r.startLSN), Position(r.startLSN), r.committed, op, before, after)
  }

  /** How many rows the event at the front of a batch takes up. */
  function Width(rows: seq<Row>): (n: nat)
    requires rows != []
    ensures 1 <= n <= |rows|
  {
    if rows[0].operation == OP_UPDATE_OLD && |rows| >= 2 && rows[1].operation == OP_UPDATE_NEW then 2 else 1
  }

  /** The event at the front of a batch, or nothing. */
  function Front(rows: seq<Row>): seq<Event>
    requires rows != []
  {
    var r := rows[0];
    if r.operation == OP_INSERT then [EventFrom(r, Insert, None, Some(r.values))]
    else if r.operation == OP_DELETE then [EventFrom(r, Delete, Some(r.values), None)]
    else if r.operation == OP_UPDATE_OLD then
      if Width(rows) == 2 then [EventFrom(r, Update, Some(r.values), Some(rows[1].values))] else []
    else if r.operation == OP_UPDATE_NEW then [EventFrom(r, Update, None, Some(r.values))]
    else []
  }

  /** The events of a batch, in order. */
  function Pairs(rows: seq<Row>): seq<Event>
    decreases |rows|
  {
    if rows == [] then [] else Front(rows) + Pairs(rows[Width(rows)..])
  }

  lemma PairsContinue(rows: seq<Row>, i: nat, events: seq<Event>)
    requires i < |rows| && events + Pairs(rows[i..]) == Pairs(rows)
    ensures i + Width(rows[i..]) <= |rows|
    ensures events + Front(rows[i..]) + Pairs(rows[i + Width(rows[i..])..]) == Pairs(rows)
  {
    var rest, tail := rows[i..], rows[i + Width(rows[i..])..];
    assert rest[Width(rest)..] == tail;
    assert Pairs(rest) == Front(rest) + Pairs(tail);
    Joined(events, Front(rest), Pairs(tail));
  }

  /** pair: one pass, taking a second row for a before image that has its after image. */
  method Pair(rows: seq<Row>) returns (events: seq<Event>)
    ensures events == Pairs(rows)
  {
    events := [];
    var i := 0;
    assert rows[0..] == rows && [] + Pairs(rows) == Pairs(rows);
    while i < |rows|
      invariant 0 <= i <= |rows|
      invariant events + Pairs(rows[i..]) == Pairs(rows)
    {
      var row := rows[i];
      PairsContinue(rows, i, events);
      if row.operation == OP_INSERT {
        events := events + [EventFrom(row, Insert, None, Some(row.values))];
      } else if row.operation == OP_DELETE {
        events := events + [EventFrom(row, Delete, Some(row.values), None)];
      } else if row.operation == OP_UPDATE_OLD {
        if i + 1 < |rows| && rows[i + 1].operation == OP_UPDATE_NEW {
          i := i + 1;
          events := events + [EventFrom(row, Update, Some(row.values), Some(rows[i].values))];
        } else {
          assert events + [] == events;
        }
      } else if row.operation == OP_UPDATE_NEW {
        events := events + [EventFrom(row, Update, None, Some(row.values))];
      } else {
        assert events + [] == events;
      }
      i := i + 1;
    }
    assert events + [] == events;
  }

  // ---- accounting -------------------------------------------------------------------

  /** Rows that reach no event: a before image with nothing after it, or an operation the
      server does not document. */
  function Dropped(rows: seq<Row>): nat
    decreases |rows|
  {
    if rows == [] then 0 else (if Front(rows) == [] then 1 else 0) + Dropped(rows[Width(rows)..])
  }

  function Images(events: seq<Event>): nat {
    if events == [] then 0
    else (if events[0].before.Some? then 1 else 0) + (if events[0].after.Some? then 1 else 0) + Images(events[1..])
  }

  /** Whatever the rows: each is an image of exactly one event, or dropped. */
  lemma {:induction false} EveryRowIsAnImage(rows: seq<Row>)
    ensures Images(Pairs(rows)) + Dropped(rows) == |rows|
    decreases |rows|
  {
    if rows != [] {
      var front, rest := Front(rows), Pairs(rows[Width(rows)..]);
      EveryRowIsAnImage(rows[Width(rows)..]);
      if front == [] {
        assert front + rest == rest;
      } else {
        assert (front + rest)[0] == front[0] && (front + rest)[1..] == rest;
      }
    }
  }

  // ---- what the events say ----------------------------------------------------------

  /** An event begins at row i: an insert or a delete, a before image with its after image
      behind it, or an after image with no before image in front. */
  predicate Begins(rows: seq<Row>, i: nat)
    requires i < |rows|
  {
    match rows[i].operation
    case 1 => true
    case 2 => true
    case 3 => i + 1 < |rows| && rows[i + 1].operation == 4
    case 4 => i == 0 || rows[i - 1].operation != 3
    case _ => false
  }

  /** The places from i on where an event begins, in order. */
  function Beginnings(rows: seq<Row>, i: nat): (at: seq<nat>)
    requires i <= |rows|
    ensures forall k :: 0 <= k < |at| ==> i <= at[k] < |rows| && Begins(rows, at[k])
    decreases |rows| - i
  {
    if i == |rows| then [] else (if Begins(rows, i) then [i] else []) + Beginnings(rows, i + 1)
  }

  /** Event e says what the rows at i say, by the documented operation codes: 1 is a delete,
      2 an insert, 3 an update's before image and 4 its after image. */
  predicate Tells(rows: seq<Row>, i: nat, e: Event)
    requires i < |rows| && Begins(rows, i)
  {
    var r := rows[i];
    && e.schema == r.schema && e.table == r.table && e.timestamp == r.committed
    && e.position == e.transaction == Position(r.startLSN)
    && (match r.operation
        case 1 => e.op == Delete && e.before == Some(r.values) && e.after == None
        case 2 => e.op == Insert && e.before == None && e.after == Some(r.values)
        case 3 => e.op == Update && e.before == Some(r.values) && e.after == Some(rows[i + 1].values)
        case 4 => e.op == Update && e.before == None && e.after == Some(r.values)
        case _ => false)
  }

  /** The events are those of these places, in order. */
  predicate AllTell(rows: seq<Row>, at: seq<nat>, events: seq<Event>) {
    |events| == |at| &&
    forall k :: 0 <= k < |at| ==> at[k] < |rows| && Begins(rows, at[k]) && Tells(rows, at[k], events[k])
  }

  lemma AllTellJoined(rows: seq<Row>, at: seq<nat>, events: seq<Event>, at': seq<nat>, events': seq<Event>)
    requires AllTell(rows, at, events) && AllTell(rows, at', events')
    ensures AllTell(rows, at + at', events + events')
  {
  }

  /** The rest of a batch never starts in the middle of an update. */
  predicate Whole(rows: seq<Row>, i: nat)
    requires i <= |rows|
  {
    i < |rows| && i > 0 && rows[i].operation == 4 ==> rows[i - 1].operation != 3
  }

  lemma FrontTells(rows: seq<Row>, i: nat)
    requires i < |rows| && Whole(rows, i)
    ensures var front := Front(rows[i..]);
      if Begins(rows, i) then |front| == 1 && Tells(rows, i, front[0]) else front == []
    ensures var n := i + Width(rows[i..]);
      n <= |rows| && Whole(rows, n) && (n == i + 2 ==> !Begins(rows, i + 1))
  {
    assert rows[i..][0] == rows[i];
    assert i + 1 < |rows| ==> rows[i..][1] == rows[i + 1];
  }

  /** One event's rows and the rest of the batch. */
  lemma PairsFrom(rows: seq<Row>, i: nat)
    requires i < |rows| && Whole(rows, i)
    ensures var n := i + Width(rows[i..]);
      && n <= |rows| && Pairs(rows[i..]) == Front(rows[i..]) + Pairs(rows[n..])
      && Beginnings(rows, i) == (if Begins(rows, i) then [i] else []) + Beginnings(rows, n)
  {
    var n := i + Width(rows[i..]);
    FrontTells(rows, i);
    assert rows[i..][Width(rows[i..])..] == rows[n..];
    if n == i + 2 {
      assert Beginnings(rows, i + 1) == [] + Beginnings(rows, n) == Beginnings(rows, n);
    }
  }

  lemma {:induction false} PairsTellFrom(rows: seq<Row>, i: nat)
    requires i <= |rows| && Whole(rows, i)
    ensures AllTell(rows, Beginnings(rows, i), Pairs(rows[i..]))
    decreases |rows| - i
  {
    if i < |rows| {
      var n := i + Width(rows[i..]);
      PairsFrom(rows, i);
      FrontTells(rows, i);
      PairsTellFrom(rows, n);
      var first := if Begins(rows, i) then [i] else [];
      AllTellJoined(rows, first, Front(rows[i..]), Beginnings(rows, n), Pairs(rows[n..]));
    }
  }

  /** Whatever the rows, the events of a batch are those that begin in it, in order, and
      each says what its rows say. */
  lemma PairsTell(rows: seq<Row>)
    ensures AllTell(rows, Beginnings(rows, 0), Pairs(rows))
  {
    PairsTellFrom(rows, 0);
    assert rows[0..] == rows;
  }

  // ---- logical changes --------------------------------------------------------------

  /** One change as the server made it, in one or two capture rows. */
  datatype Change = Single(row: Row) | Updated(prior: Row, later: Row)

  predicate WellFormed(c: Change) {
    match c
    case Single(r) => r.operation == OP_INSERT || r.operation == OP_DELETE
    case Updated(o, n) => o.operation == OP_UPDATE_OLD && n.operation == OP_UPDATE_NEW && RowKey(o) == RowKey(n)
  }

  ghost predicate AllWellFormed(cs: seq<Change>) { forall c :: c in cs ==> WellFormed(c) }

  function First(c: Change): Row { if c.Single? then c.row else c.prior }

  function ChangeKey(c: Change): Key { RowKey(First(c)) }

  function RowsOf(c: Change): seq<Row> { if c.Single? then [c.row] else [c.prior, c.later] }

  function Flatten(cs: seq<Change>): seq<Row> { if cs == [] then [] else RowsOf(cs[0]) + Flatten(cs[1..]) }

  function EventOf(c: Change): Event {
    match c
    case Single(r) =>
      if r.operation == OP_INSERT then EventFrom(r, Insert, None, Some(r.values))
      else EventFrom(r, Delete, Some(r.values), None)
    case Updated(o, n) => EventFrom(o, Update, Some(o.values), Some(n.values))
  }

  function Events(cs: seq<Change>): seq<Event> { if cs == [] then [] else [EventOf(cs[0])] + Events(cs[1..]) }

  /** Event e says what change c did, by the documented operation codes. */
  predicate TellsChange(c: Change, e: Event) {
    var r := First(c);
    && e.schema == r.schema && e.table == r.table && e.timestamp == r.committed
    && e.position == e.transaction == Position(r.startLSN)
    && (match c
        case Single(_) =>
          || (r.operation == 2 && e.op == Insert && e.before == None && e.after == Some(r.values))
          || (r.operation == 1 && e.op == Delete && e.before == Some(r.values) && e.after == None)
        case Updated(o, n) =>
          && o.operation == 3 && n.operation == 4
          && e.op == Update && e.before == Some(o.values) && e.after == Some(n.values))
  }

  lemma {:induction false} EventsTell(cs: seq<Change>)
    requires AllWellFormed(cs)
    ensures |Events(cs)| == |cs| && forall k :: 0 <= k < |cs| ==> TellsChange(cs[k], Events(cs)[k])
  {
    if cs != [] {
      assert WellFormed(cs[0]);
      EventsTell(cs[1..]);
    }
  }

  lemma {:induction false} FlattenConcat(a: seq<Change>, b: seq<Change>)
    ensures Flatten(a + b) == Flatten(a) + Flatten(b)
  {
    if a == [] {
      assert a + b == b;
    } else {
      assert (a + b)[0] == a[0] && (a + b)[1..] == a[1..] + b;
      FlattenConcat(a[1..], b);
    }
  }

  lemma {:induction false} EventsConcat(a: seq<Change>, b: seq<Change>)
    ensures Events(a + b) == Events(a) + Events(b) && |Events(a)| == |a|
  {
    if a == [] {
      assert a + b == b;
    } else {
      assert (a + b)[0] == a[0] && (a + b)[1..] == a[1..] + b;
      EventsConcat(a[1..], b);
    }
  }

  lemma {:induction false} EventsLength(cs: seq<Change>)
    ensures |Events(cs)| == |cs|
  {
    if cs != [] {
      EventsLength(cs[1..]);
    }
  }

  /** Whole changes pair up into their own events, one each, and nothing is dropped. */
  lemma {:induction false} PairsOfWhole(cs: seq<Change>)
    requires AllWellFormed(cs)
    ensures Pairs(Flatten(cs)) == Events(cs) && Dropped(Flatten(cs)) == 0
  {
    if cs != [] {
      var c, rest := cs[0], Flatten(cs[1..]);
      assert WellFormed(c);
      PairsOfWhole(cs[1..]);
      if c.Single? {
        assert ([c.row] + rest)[1..] == rest;
      } else {
        assert ([c.prior, c.later] + rest)[2..] == rest;
      }
    }
  }

  lemma {:induction false} OfFlatten(cs: seq<Change>, k: Key)
    requires AllWellFormed(cs)
    ensures Of(Flatten(cs), RowKey, k) == Flatten(Of(cs, ChangeKey, k))
  {
    if cs != [] {
      var c := cs[0];
      assert WellFormed(c);
      OfFlatten(cs[1..], k);
      OfConcat(RowsOf(c), Flatten(cs[1..]), RowKey, k);
      OfRows(c, k);
      FlattenConcat(if ChangeKey(c) == k then [c] else [], Of(cs[1..], ChangeKey, k));
      assert Flatten([c]) == RowsOf(c) + Flatten([]);
    }
  }

  lemma OfRows(c: Change, k: Key)
    requires WellFormed(c)
    ensures Of(RowsOf(c), RowKey, k) == if ChangeKey(c) == k then RowsOf(c) else []
  {
    if c.Updated? {
      assert RowsOf(c)[1..] == [c.later];
      assert Of([c.later], RowKey, k) == (if RowKey(c.later) == k then [c.later] else []) + Of([], RowKey, k);
    }
  }

  lemma {:induction false} FlattenMember(cs: seq<Change>, r: Row) returns (c: Change)
    requires AllWellFormed(cs) && r in Flatten(cs)
    ensures c in cs && ChangeKey(c) == RowKey(r)
  {
    assert WellFormed(cs[0]);
    if r in RowsOf(cs[0]) {
      c := cs[0];
    } else {
      c := FlattenMember(cs[1..], r);
    }
  }

  lemma {:induction false} FlattenKeepsOrder(cs: seq<Change>)
    requires AllWellFormed(cs) && Ordered(cs, ChangeKey)
    ensures Ordered(Flatten(cs), RowKey)
  {
    if cs != [] {
      FlattenKeepsOrder(cs[1..]);
      var front, rest := RowsOf(cs[0]), Flatten(cs[1..]);
      assert WellFormed(cs[0]);
      LessIsTotal(ChangeKey(cs[0]), ChangeKey(cs[0]));
      forall r | r in rest ensures !Less(RowKey(r), ChangeKey(cs[0])) {
        var c := FlattenMember(cs[1..], r);
        var i :| 0 <= i < |cs[1..]| && cs[1..][i] == c;
        assert cs[i + 1] == c && !Less(ChangeKey(cs[i + 1]), ChangeKey(cs[0]));
      }
      forall r | r in front ensures RowKey(r) == ChangeKey(cs[0]) {
      }
    }
  }

  /** Pairing survives merging: however many instances the rows came from and in whatever
      order, sorting them by commit order and pairing gives the changes themselves sorted
      by commit order, one event each, with no before image dropped. */
  lemma {:induction false} PairingSurvivesMerging(cs: seq<Change>)
    requires AllWellFormed(cs)
    ensures var rows := StableSort(Flatten(cs), RowKey); var sorted := StableSort(cs, ChangeKey);
      && rows == Flatten(sorted)
      && Pairs(rows) == Events(sorted) && |Pairs(rows)| == |cs| && Dropped(rows) == 0
  {
    var sorted := StableSort(cs, ChangeKey);
    StableSortIsOrdered(cs, ChangeKey);
    StableSortLength(cs, ChangeKey);
    SortedIsWellFormed(cs);
    FlattenKeepsOrder(sorted);
    forall k: Key ensures Of(Flatten(cs), RowKey, k) == Of(Flatten(sorted), RowKey, k) {
      OfFlatten(cs, k);
      OfFlatten(sorted, k);
      StableSortKeepsOf(cs, ChangeKey, k);
    }
    StableSortIs(Flatten(cs), Flatten(sorted), RowKey);
    PairsOfWhole(sorted);
    EventsLength(sorted);
  }

  lemma SortedIsWellFormed(cs: seq<Change>)
    requires AllWellFormed(cs)
    ensures AllWellFormed(StableSort(cs, ChangeKey))
  {
    var sorted := StableSort(cs, ChangeKey);
    forall c | c in sorted ensures WellFormed(c) {
      StableSortKeepsOf(cs, ChangeKey, ChangeKey(c));
      OfMember(sorted, ChangeKey, ChangeKey(c));
      OfMember(cs, ChangeKey, ChangeKey(c));
      assert c in Of(sorted, ChangeKey, ChangeKey(c));
    }
  }
}
