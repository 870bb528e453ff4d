/** The SQL Server stream: every poll reads one window of log sequence numbers from each
    capture instance, merges and pairs it, and moves the window on. */
module Polling {
  import opened Options
  import opened Lsn
  import opened ChangeOrder
  import opened Pairing

  // ---- one capture instance ---------------------------------------------------------

  /** What an instance's change table holds, and the oldest number it admits to; none
      until the capture job has produced anything. */
  datatype Instance = Instance(oldest: Option<Lsn>, held: seq<Change>)

  predicate InWindow(l: Lsn, from: Lsn, to: Lsn) { Compare(from, l) <= 0 && Compare(l, to) <= 0 }

  function Between(cs: seq<Change>, from: Lsn, to: Lsn): seq<Change> {
    if cs == [] then []
    else (if InWindow(ChangeKey(cs[0]).lsn, from, to) then [cs[0]] else []) + Between(cs[1..], from, to)
  }

  /** The capture function, inclusive at both ends: it rejects a window that reaches back
      before its oldest number or is inside out. */
  function Query(x: Instance, from: Lsn, to: Lsn): Option<seq<Row>> {
    if x.oldest.None? || Compare(from, x.oldest.value) < 0 || Compare(from, to) > 0 then None
    else Some(Flatten(Between(x.held, from, to)))
  }

  function Clamped(oldest: Lsn, from: Lsn): Lsn { if Compare(from, oldest) < 0 then oldest else from }

  function InstanceRows(x: Instance, from: Lsn, to: Lsn): seq<Row> {
    if x.oldest.None? || Compare(Clamped(x.oldest.value, from), to) > 0 then []
    else Flatten(Between(x.held, Clamped(x.oldest.value, from), to))
  }

  /** readInstance never asks for a window the capture function rejects: it asks only when
      the clamped window is not inside out, and is then always answered. */
  method ReadInstance(x: Instance, start: Lsn, to: Lsn) returns (rows: seq<Row>)
    ensures rows == InstanceRows(x, start, to)
    ensures x.oldest.Some? && Compare(Clamped(x.oldest.value, start), to) <= 0 ==>
      Query(x, Clamped(x.oldest.value, start), to) == Some(rows)
    ensures x.oldest.None? || Compare(Clamped(x.oldest.value, start), to) > 0 ==> rows == []
  {
    if x.oldest.None? {
      return [];
    }
    var oldest := x.oldest.value;
    CompareIsAntisymmetric(oldest, oldest);
    CompareIsAntisymmetric(start, oldest);
    var from := start;
    if Compare(from, oldest) < 0 {
      from := oldest;
    }
    if Compare(from, to) > 0 {
      return [];
    }
    var found := Query(x, from, to);
    assert found.Some?;
    rows := found.value;
  }

  /** No change of the window has been cleaned up unread. */
  ghost predicate NothingUnreadCleaned(cs: seq<Change>, oldest: Option<Lsn>, from: Lsn, to: Lsn) {
    forall c :: c in cs && InWindow(ChangeKey(c).lsn, from, to) ==>
      oldest.Some? && Compare(oldest.value, ChangeKey(c).lsn) <= 0
  }

  lemma {:induction false} BetweenMember(cs: seq<Change>, from: Lsn, to: Lsn)
    ensures forall c :: c in Between(cs, from, to) <==> c in cs && InWindow(ChangeKey(c).lsn, from, to)
  {
    if cs != [] {
      BetweenMember(cs[1..], from, to);
    }
  }

  lemma CleanedHead(cs: seq<Change>, oldest: Lsn, from: Lsn, to: Lsn)
    requires cs != []
    ensures NothingUnreadCleaned(cs, Some(oldest), from, to) <==>
      (InWindow(ChangeKey(cs[0]).lsn, from, to) ==> Compare(oldest, ChangeKey(cs[0]).lsn) <= 0)
      && NothingUnreadCleaned(cs[1..], Some(oldest), from, to)
  {
    assert cs == [cs[0]] + cs[1..];
  }

  lemma ClampedWindow(oldest: Lsn, from: Lsn, to: Lsn, l: Lsn)
    ensures InWindow(l, Clamped(oldest, from), to) <==> InWindow(l, from, to) && Compare(oldest, l) <= 0
  {
    CompareIsAntisymmetric(from, oldest);
    if Compare(from, oldest) < 0 {
      if Compare(oldest, l) <= 0 {
        CompareIsTransitive(from, oldest, l);
      }
    } else if Compare(from, l) <= 0 {
      CompareIsTransitive(oldest, from, l);
    }
  }

  lemma {:induction false} FlattenBetween(cs: seq<Change>, from: Lsn, to: Lsn)
    requires cs != []
    ensures Flatten(Between(cs, from, to)) ==
      (if InWindow(ChangeKey(cs[0]).lsn, from, to) then RowsOf(cs[0]) else []) + Flatten(Between(cs[1..], from, to))
  {
    var c, rest := cs[0], Between(cs[1..], from, to);
    if InWindow(ChangeKey(c).lsn, from, to) {
      assert ([c] + rest)[0] == c && ([c] + rest)[1..] == rest;
      assert Flatten(Between(cs, from, to)) == Flatten([c] + rest);
    } else {
      assert Between(cs, from, to) == [] + rest == rest;
    }
  }

  lemma SamePrefix(rows: seq<Row>, a: seq<Row>, b: seq<Row>)
    ensures rows + a == rows + b <==> a == b
  {
    assert (rows + a)[|rows|..] == a && (rows + b)[|rows|..] == b;
  }

  lemma {:induction false} ClampedBetween(cs: seq<Change>, oldest: Lsn, from: Lsn, to: Lsn)
    ensures var small, large := Flatten(Between(cs, Clamped(oldest, from), to)), Flatten(Between(cs, from, to));
      |small| <= |large| && (small == large <==> NothingUnreadCleaned(cs, Some(oldest), from, to))
  {
    if cs != [] {
      ClampedBetween(cs[1..], oldest, from, to);
      CleanedHead(cs, oldest, from, to);
      ClampedWindow(oldest, from, to, ChangeKey(cs[0]).lsn);
      FlattenBetween(cs, Clamped(oldest, from), to);
      FlattenBetween(cs, from, to);
      var rows, l := RowsOf(cs[0]), ChangeKey(cs[0]).lsn;
      var small, large := Flatten(Between(cs[1..], Clamped(oldest, from), to)), Flatten(Between(cs[1..], from, to));
      if !InWindow(l, from, to) {
        assert [] + small == small && [] + large == large;
      } else if Compare(oldest, l) <= 0 {
        SamePrefix(rows, small, large);
      } else {
        assert |[] + small| < |rows + large|;
      }
    }
  }

  /** What an instance with a cleanup job behind it still delivers of a window is all of it
      if and only if no change of the window was cleaned up before it was read. */
  lemma {:induction false} WindowIsWholeExactly(cs: seq<Change>, oldest: Option<Lsn>, from: Lsn, to: Lsn)
    requires Compare(from, to) <= 0
    ensures InstanceRows(Instance(oldest, cs), from, to) == Flatten(Between(cs, from, to))
      <==> NothingUnreadCleaned(cs, oldest, from, to)
  {
    if oldest.Some? {
      ClampedBetween(cs, oldest.value, from, to);
      if Compare(Clamped(oldest.value, from), to) > 0 {
        NothingInside(cs, Clamped(oldest.value, from), to);
      }
    } else {
      BetweenMember(cs, from, to);
      var found := Between(cs, from, to);
      if found == [] {
        assert forall c :: c in cs && InWindow(ChangeKey(c).lsn, from, to) ==> c in found;
      } else {
        assert found[0] in found && Flatten(found) != [];
      }
    }
  }

  lemma {:induction false} NothingInside(cs: seq<Change>, from: Lsn, to: Lsn)
    requires Compare(from, to) > 0
    ensures Between(cs, from, to) == []
  {
    if cs != [] {
      NothingInside(cs[1..], from, to);
      var l := ChangeKey(cs[0]).lsn;
      if InWindow(l, from, to) {
        CompareIsTransitive(from, l, to);
      }
    }
  }

  // ---- one poll ---------------------------------------------------------------------

  /** What can end a stream in the middle of a poll. */
  datatype Trouble = Nothing | MaxFails | ReadFails | Cancelled(sent: nat) | IncrementFails

  /** What the server answers during one poll. */
  datatype View = View(max: Option<Lsn>, instances: seq<Instance>, next: Lsn, trouble: Trouble)

  datatype Stream = Stream(from: Lsn, delivered: seq<Event>, running: bool)

  function BatchRows(instances: seq<Instance>, from: Lsn, to: Lsn): seq<Row> {
    if instances == [] then [] else InstanceRows(instances[0], from, to) + BatchRows(instances[1..], from, to)
  }

  function BatchEvents(v: View, from: Lsn): seq<Event>
    requires v.max.Some?
  {
    Pairs(StableSort(BatchRows(v.instances, from, v.max.value), RowKey))
  }

  function Polled(x: Stream, v: View): Stream {
    if !x.running then x
    else if v.trouble.MaxFails? then x.(running := false)
    else if v.max.None? || Compare(v.max.value, x.from) < 0 then x
    else if v.trouble.ReadFails? then x.(running := false)
    else
      var events := BatchEvents(v, x.from);
      if v.trouble.Cancelled? && v.trouble.sent < |events| then
        x.(delivered := x.delivered + events[..v.trouble.sent], running := false)
      else if v.trouble.IncrementFails? then x.(delivered := x.delivered + events, running := false)
      else x.(from := v.next, delivered := x.delivered + events)
  }

  lemma {:induction false} BatchRowsAppend(instances: seq<Instance>, x: Instance, from: Lsn, to: Lsn)
    ensures BatchRows(instances + [x], from, to) == BatchRows(instances, from, to) + InstanceRows(x, from, to)
  {
    if instances == [] {
      assert [] + [x] == [x] && [x][1..] == [];
    } else {
      assert (instances + [x])[0] == instances[0] && (instances + [x])[1..] == instances[1..] + [x];
      BatchRowsAppend(instances[1..], x, from, to);
    }
  }

  class EventStream {
    var from: Lsn
    var delivered: seq<Event>    // everything sent on the channel
    var running: bool

    ghost function State(): Stream
      reads this
    {
      Stream(from, delivered, running)
    }

    constructor (start: Lsn)
      ensures State() == Stream(start, [], true)
    {
      from, delivered, running := start, [], true;
    }

    /** Reads every instance's part of the window. */
    method ReadBatch(instances: seq<Instance>, to: Lsn) returns (batch: seq<Row>)
      ensures batch == BatchRows(instances, from, to)
    {
      batch := [];
      var i := 0;
      while i < |instances|
        invariant 0 <= i <= |instances| && batch == BatchRows(instances[..i], from, to)
      {
        var found := ReadInstance(instances[i], from, to);
        BatchRowsAppend(instances[..i], instances[i], from, to);
        assert instances[..i + 1] == instances[..i] + [instances[i]];
        batch := batch + found;
        i := i + 1;
      }
      assert instances[..i] == instances;
    }

    /** Sorts and pairs a batch. */
    method Merge(batch: seq<Row>) returns (events: seq<Event>)
      ensures events == Pairs(StableSort(batch, RowKey))
    {
      var rows := new Row[|batch|](i requires 0 <= i < |batch| => batch[i]);
      assert rows[..] == batch;
      OrderChanges(rows, RowKey);
      events := Pair(rows[..]);
    }

    /** Sends events on the channel one by one until the stream is cancelled. */
    method Send(events: seq<Event>, cancelled: Option<nat>) returns (all: bool)
      modifies this`delivered
      ensures all == (cancelled.None? || cancelled.value >= |events|)
      ensures delivered == old(delivered) + (if all then events else events[..cancelled.value])
    {
      var i := 0;
      while i < |events|
        invariant 0 <= i <= |events| && delivered == old(delivered) + events[..i]
        invariant cancelled.Some? ==> i <= cancelled.value
      {
        if cancelled == Some(i) {
          return false;
        }
        assert events[..i + 1] == events[..i] + [events[i]];
        delivered := delivered + [events[i]];
        i := i + 1;
      }
      assert events[..i] == events;
      return true;
    }

    /** Reads one window of changes and delivers it. */
    method Poll(v: View)
      requires running
      modifies this
      ensures State() == Polled(old(State()), v)
    {
      if v.trouble.MaxFails? {
        running := false;
        return;
      }
      if v.max.None? || Compare(v.max.value, from) < 0 {
        return;
      }
      var to := v.max.value;
      if v.trouble.ReadFails? {
        running := false;
        return;
      }
      var batch := ReadBatch(v.instances, to);
      var events := Merge(batch);
      var all := Send(events, if v.trouble.Cancelled? then Some(v.trouble.sent) else None);
      if !all || v.trouble.IncrementFails? {
        running := false;
        return;
      }
      from := v.next;
    }
  }
}
