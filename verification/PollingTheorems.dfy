/** Exactness of the SQL Server stream over any number of polls. */
module PollingTheorems {
  import opened Options
  import opened Lsn
  import opened ChangeOrder
  import opened Pairing
  import opened Polling
  import opened Sequences

  /** Every change each tracked table will ever make, in the order it was captured. */
  type World = seq<seq<Change>>

  function All(world: World): seq<Change> { if world == [] then [] else world[0] + All(world[1..]) }

  ghost predicate Logged(cs: seq<Change>) {
    forall c :: c in cs ==> WellFormed(c) && |ChangeKey(c).lsn| == LSN_LEN
  }

  /** An honest answer to a poll from a given number: what is visible above the oldest
      number is what the tables did up to the maximum, nothing unread was cleaned up, and
      incrementing the maximum steps to its successor. */
  ghost predicate Honest(world: World, from: Lsn, v: View) {
    v.max.Some? && Compare(v.max.value, from) >= 0 ==>
      && |v.max.value| == |v.next| == LSN_LEN && Value(v.next) == Value(v.max.value) + 1
      && |v.instances| == |world|
      && forall t :: 0 <= t < |world| ==> HonestInstance(world[t], v.instances[t], from, v.max.value)
  }

  ghost predicate HonestInstance(cs: seq<Change>, x: Instance, from: Lsn, to: Lsn) {
    && NothingUnreadCleaned(cs, x.oldest, from, to)
    && (x.oldest.Some? ==>
         var low := Clamped(x.oldest.value, from); Between(x.held, low, to) == Between(cs, low, to))
  }

  function Run(x: Stream, views: seq<View>): Stream
    decreases |views|
  {
    if views == [] then x else Run(Polled(x, views[0]), views[1..])
  }

  ghost predicate HonestRun(world: World, x: Stream, views: seq<View>)
    decreases |views|
  {
    views == [] || (Honest(world, x.from, views[0]) && HonestRun(world, Polled(x, views[0]), views[1..]))
  }

  // ---- half-open windows ------------------------------------------------------------

  predicate InSpan(l: Lsn, a: Lsn, b: Option<Lsn>) {
    Compare(a, l) <= 0 && (b.Some? ==> Compare(l, b.value) < 0)
  }

  /** The changes from a on, up to but not including b. */
  function Span(cs: seq<Change>, a: Lsn, b: Option<Lsn>): seq<Change> {
    if cs == [] then [] else (if InSpan(ChangeKey(cs[0]).lsn, a, b) then [cs[0]] else []) + Span(cs[1..], a, b)
  }

  function SortedSpan(cs: seq<Change>, a: Lsn, b: Option<Lsn>): seq<Change> { StableSort(Span(cs, a, b), ChangeKey) }

  lemma {:induction false} OfSpan(cs: seq<Change>, a: Lsn, b: Option<Lsn>, k: Key)
    ensures Of(Span(cs, a, b), ChangeKey, k) == if InSpan(k.lsn, a, b) then Of(cs, ChangeKey, k) else []
  {
    if cs != [] {
      var c, rest := cs[0], Span(cs[1..], a, b);
      OfSpan(cs[1..], a, b, k);
      if InSpan(ChangeKey(c).lsn, a, b) {
        assert ([c] + rest)[0] == c && ([c] + rest)[1..] == rest;
      } else {
        assert [] + rest == rest;
      }
    }
  }

  lemma {:induction false} SpanMember(cs: seq<Change>, a: Lsn, b: Option<Lsn>, c: Change)
    ensures c in Span(cs, a, b) <==> c in cs && InSpan(ChangeKey(c).lsn, a, b)
  {
    var k := ChangeKey(c);
    OfSpan(cs, a, b, k);
    OfMember(Span(cs, a, b), ChangeKey, k);
    OfMember(cs, ChangeKey, k);
    assert c in Of(Span(cs, a, b), ChangeKey, k) <==> c in Span(cs, a, b);
    assert c in Of(cs, ChangeKey, k) <==> c in cs;
  }

  lemma SortedMember(cs: seq<Change>, c: Change)
    requires c in StableSort(cs, ChangeKey)
    ensures c in cs
  {
    var k := ChangeKey(c);
    StableSortKeepsOf(cs, ChangeKey, k);
    OfMember(StableSort(cs, ChangeKey), ChangeKey, k);
    OfMember(cs, ChangeKey, k);
    assert c in Of(StableSort(cs, ChangeKey), ChangeKey, k);
  }

  /** Sorting window by window is sorting once. */
  lemma {:induction false} SortedSpansJoin(cs: seq<Change>, a: Lsn, b: Lsn, e: Option<Lsn>)
    requires Compare(a, b) <= 0 && (e.Some? ==> Compare(b, e.value) <= 0)
    ensures SortedSpan(cs, a, Some(b)) + SortedSpan(cs, b, e) == SortedSpan(cs, a, e)
  {
    var left, right := SortedSpan(cs, a, Some(b)), SortedSpan(cs, b, e);
    StableSortIsOrdered(Span(cs, a, Some(b)), ChangeKey);
    StableSortIsOrdered(Span(cs, b, e), ChangeKey);
    forall x, y | x in left && y in right ensures !Less(ChangeKey(y), ChangeKey(x)) {
      SortedMember(Span(cs, a, Some(b)), x);
      SortedMember(Span(cs, b, e), y);
      SpanMember(cs, a, Some(b), x);
      SpanMember(cs, b, e, y);
      CompareIsTransitive(ChangeKey(x).lsn, b, ChangeKey(y).lsn);
      LessIsTotal(ChangeKey(x), ChangeKey(y));
    }
    assert forall i :: 0 <= i < |left| ==> (left + right)[i] in left;
    assert forall i :: |left| <= i < |left + right| ==> (left + right)[i] in right;
    forall k: Key ensures Of(Span(cs, a, e), ChangeKey, k) == Of(left + right, ChangeKey, k) {
      OfConcat(left, right, ChangeKey, k);
      StableSortKeepsOf(Span(cs, a, Some(b)), ChangeKey, k);
      StableSortKeepsOf(Span(cs, b, e), ChangeKey, k);
      OfSpan(cs, a, Some(b), k);
      OfSpan(cs, b, e, k);
      OfSpan(cs, a, e, k);
      SpansSplit(k.lsn, a, b, e);
    }
    StableSortIs(Span(cs, a, e), left + right, ChangeKey);
  }

  lemma SpansSplit(l: Lsn, a: Lsn, b: Lsn, e: Option<Lsn>)
    requires Compare(a, b) <= 0 && (e.Some? ==> Compare(b, e.value) <= 0)
    ensures InSpan(l, a, e) <==> InSpan(l, a, Some(b)) || InSpan(l, b, e)
    ensures !(InSpan(l, a, Some(b)) && InSpan(l, b, e))
  {
    CompareIsAntisymmetric(l, b);
    if Compare(l, b) < 0 {
      if e.Some? {
        CompareIsTransitive(l, b, e.value);
      }
    } else {
      CompareIsTransitive(a, b, l);
    }
  }

  // ---- one poll ---------------------------------------------------------------------

  lemma {:induction false} BetweenIsSpan(cs: seq<Change>, from: Lsn, to: Lsn, next: Lsn)
    requires Logged(cs) && |to| == |next| == LSN_LEN && Value(next) == Value(to) + 1
    ensures Between(cs, from, to) == Span(cs, from, Some(next))
  {
    if cs != [] {
      var l := ChangeKey(cs[0]).lsn;
      CompareIsNumeric(l, to);
      CompareIsNumeric(l, next);
      BetweenIsSpan(cs[1..], from, to, next);
    }
  }

  lemma {:induction false} SpanConcat(x: seq<Change>, y: seq<Change>, a: Lsn, b: Option<Lsn>)
    ensures Span(x + y, a, b) == Span(x, a, b) + Span(y, a, b)
  {
    if x == [] {
      assert x + y == y;
    } else {
      var all, first := x + y, if InSpan(ChangeKey(x[0]).lsn, a, b) then [x[0]] else [];
      assert all[0] == x[0] && all[1..] == x[1..] + y;
      SpanConcat(x[1..], y, a, b);
      assert Span(all, a, b) == first + Span(all[1..], a, b);
      Joined(first, Span(x[1..], a, b), Span(y, a, b));
    }
  }

  lemma {:induction false} HonestRows(cs: seq<Change>, x: Instance, from: Lsn, to: Lsn)
    requires HonestInstance(cs, x, from, to) && Compare(from, to) <= 0
    ensures InstanceRows(x, from, to) == Flatten(Between(cs, from, to))
  {
    WindowIsWholeExactly(cs, x.oldest, from, to);
  }

  lemma {:induction false} BatchIsWindow(world: World, instances: seq<Instance>, from: Lsn, to: Lsn, next: Lsn)
    requires Logged(All(world)) && |instances| == |world| && Compare(from, to) <= 0
    requires |to| == |next| == LSN_LEN && Value(next) == Value(to) + 1
    requires forall t :: 0 <= t < |world| ==> HonestInstance(world[t], instances[t], from, to)
    ensures BatchRows(instances, from, to) == Flatten(Span(All(world), from, Some(next)))
  {
    if world != [] {
      assert forall c :: c in world[0] || c in All(world[1..]) ==> c in All(world);
      BatchIsWindow(world[1..], instances[1..], from, to, next);
      HonestRows(world[0], instances[0], from, to);
      BetweenIsSpan(world[0], from, to, next);
      SpanConcat(world[0], All(world[1..]), from, Some(next));
      FlattenConcat(Span(world[0], from, Some(next)), Span(All(world[1..]), from, Some(next)));
    }
  }

  lemma {:induction false} SpanIsWellFormed(cs: seq<Change>, a: Lsn, b: Option<Lsn>)
    requires Logged(cs)
    ensures AllWellFormed(Span(cs, a, b))
  {
    forall c | c in Span(cs, a, b) ensures WellFormed(c) {
      SpanMember(cs, a, b, c);
    }
  }

  /** A poll that reads a window has for the channel exactly the window's changes in commit
      order, one event each. A window is whole numbers, so no transaction is split. */
  lemma PollReadsItsWindow(world: World, from: Lsn, v: View)
    requires Logged(All(world)) && Honest(world, from, v)
    requires v.max.Some? && Compare(v.max.value, from) >= 0
    ensures BatchEvents(v, from) == Events(SortedSpan(All(world), from, Some(v.next)))
    ensures Compare(from, v.next) < 0
    ensures forall x, y :: x in All(world) && y in All(world) && ChangeKey(x).lsn == ChangeKey(y).lsn ==>
      (x in Span(All(world), from, Some(v.next)) <==> y in Span(All(world), from, Some(v.next)))
  {
    var to, window := v.max.value, Span(All(world), from, Some(v.next));
    CompareIsAntisymmetric(from, to);
    CompareIsNumeric(to, v.next);
    CompareIsTransitive(from, to, v.next);
    BatchIsWindow(world, v.instances, from, to, v.next);
    SpanIsWellFormed(All(world), from, Some(v.next));
    PairingSurvivesMerging(window);
    forall x, y | x in All(world) && y in All(world) && ChangeKey(x).lsn == ChangeKey(y).lsn
      ensures x in window <==> y in window
    {
      SpanMember(All(world), from, Some(v.next), x);
      SpanMember(All(world), from, Some(v.next), y);
    }
  }

  // ---- whole runs -------------------------------------------------------------------

  /** While it runs, everything from the start up to where the next poll begins has been
      delivered; stopped or not, what was delivered begins the sorted log. */
  ghost predicate Exact(world: World, start: Lsn, x: Stream) {
    && Compare(start, x.from) <= 0
    && (x.running ==> x.delivered == Events(SortedSpan(All(world), start, Some(x.from))))
    && x.delivered <= Events(SortedSpan(All(world), start, None))
  }

  lemma {:induction false} JoinedEvents(cs: seq<Change>, a: Lsn, b: Lsn, e: Option<Lsn>)
    requires Compare(a, b) <= 0 && (e.Some? ==> Compare(b, e.value) <= 0)
    ensures Events(SortedSpan(cs, a, Some(b))) + Events(SortedSpan(cs, b, e)) == Events(SortedSpan(cs, a, e))
  {
    SortedSpansJoin(cs, a, b, e);
    EventsConcat(SortedSpan(cs, a, Some(b)), SortedSpan(cs, b, e));
  }

  /** A poll that reads its window appends it: what was delivered is then the sorted log up
      to the next window, which begins the whole of it. */
  lemma WindowIsNext(world: World, start: Lsn, x: Stream, v: View)
    requires Logged(All(world)) && Honest(world, x.from, v) && Exact(world, start, x) && x.running
    requires v.max.Some? && Compare(v.max.value, x.from) >= 0
    ensures Compare(start, v.next) <= 0
    ensures x.delivered + BatchEvents(v, x.from) == Events(SortedSpan(All(world), start, Some(v.next)))
    ensures x.delivered + BatchEvents(v, x.from) <= Events(SortedSpan(All(world), start, None))
  {
    var cs := All(world);
    PollReadsItsWindow(world, x.from, v);
    CompareIsTransitive(start, x.from, v.next);
    JoinedEvents(cs, start, x.from, Some(v.next));
    JoinedEvents(cs, start, v.next, None);
  }

  /** A prefix of what begins the sorted log is exact for a stream that has stopped. */
  lemma StoppedIsExact(world: World, start: Lsn, x: Stream, delivered: seq<Event>)
    requires Exact(world, start, x) && delivered <= Events(SortedSpan(All(world), start, None))
    ensures Exact(world, start, x.(delivered := delivered, running := false))
  {
  }

  lemma {:induction false} WindowReadIsExact(world: World, start: Lsn, x: Stream, v: View)
    requires Logged(All(world)) && Honest(world, x.from, v) && Exact(world, start, x) && x.running
    requires v.max.Some? && Compare(v.max.value, x.from) >= 0 && !v.trouble.MaxFails? && !v.trouble.ReadFails?
    ensures Exact(world, start, Polled(x, v))
  {
    WindowIsNext(world, start, x, v);
    var events := BatchEvents(v, x.from);
    if v.trouble.Cancelled? && v.trouble.sent < |events| {
      assert x.delivered + events[..v.trouble.sent] <= x.delivered + events;
      StoppedIsExact(world, start, x, x.delivered + events[..v.trouble.sent]);
    } else if v.trouble.IncrementFails? {
      StoppedIsExact(world, start, x, x.delivered + events);
    } else {
      assert Polled(x, v) == x.(from := v.next, delivered := x.delivered + events);
    }
  }

  lemma {:induction false} PolledIsExact(world: World, start: Lsn, x: Stream, v: View)
    requires Logged(All(world)) && Honest(world, x.from, v) && Exact(world, start, x)
    ensures Exact(world, start, Polled(x, v))
  {
    var read := x.running && v.max.Some? && Compare(v.max.value, x.from) >= 0
      && !v.trouble.MaxFails? && !v.trouble.ReadFails?;
    if read {
      WindowReadIsExact(world, start, x, v);
    } else {
      StoppedIsExact(world, start, x, x.delivered);
      assert Polled(x, v) == x || Polled(x, v) == x.(running := false);
    }
  }

  lemma {:induction false} RunIsExact(world: World, start: Lsn, x: Stream, views: seq<View>)
    requires Logged(All(world)) && HonestRun(world, x, views) && Exact(world, start, x)
    ensures Exact(world, start, Run(x, views))
    decreases |views|
  {
    if views != [] {
      PolledIsExact(world, start, x, views[0]);
      RunIsExact(world, start, Polled(x, views[0]), views[1..]);
    }
  }

  /** Over any number of polls the stream delivers the log sorted by (start LSN, seqval)
      from its starting number to the end of the last window, each captured change exactly
      once; a stream that stopped has delivered a prefix of it. */
  lemma {:induction false} PollingIsExact(world: World, start: Lsn, views: seq<View>)
    requires Logged(All(world)) && HonestRun(world, Stream(start, [], true), views)
    ensures var x := Run(Stream(start, [], true), views);
      && (x.running ==> x.delivered == Events(SortedSpan(All(world), start, Some(x.from))))
      && (x.running ==> |x.delivered| == |Span(All(world), start, Some(x.from))|)
      && x.delivered <= Events(SortedSpan(All(world), start, None))
      && |x.delivered| <= |SortedSpan(All(world), start, None)|
      && forall k :: 0 <= k < |x.delivered| ==> TellsChange(SortedSpan(All(world), start, None)[k], x.delivered[k])
  {
    CompareIsAntisymmetric(start, start);
    SpanIsWellFormed(All(world), start, None);
    SortedIsWellFormed(Span(All(world), start, None));
    EventsTell(SortedSpan(All(world), start, None));
    NothingYet(All(world), start);
    RunIsExact(world, start, Stream(start, [], true), views);
    var x := Run(Stream(start, [], true), views);
    StableSortLength(Span(All(world), start, Some(x.from)), ChangeKey);
    EventsLength(SortedSpan(All(world), start, Some(x.from)));
  }

  /** A stopped stream delivers nothing more. */
  lemma {:induction false} StoppedStaysStopped(x: Stream, views: seq<View>)
    requires !x.running
    ensures Run(x, views) == x
    decreases |views|
  {
    if views != [] {
      StoppedStaysStopped(x, views[1..]);
    }
  }

  /** A poll finds a window to read: the capture job has reached where the stream is. */
  predicate HasWindow(x: Stream, v: View) { v.max.Some? && Compare(x.from, v.max.value) <= 0 }

  /** What a poll adds, and what ends the stream: any failing call or a cancelled send, and
      nothing else. */
  lemma PollOutcome(x: Stream, v: View, views: seq<View>)
    ensures var y := Polled(x, v);
      x.running && y.running ==>
        !v.trouble.MaxFails?
        && (HasWindow(x, v) ==>
             !v.trouble.ReadFails? && !v.trouble.IncrementFails? && y.from == v.next
             && y.delivered == x.delivered + BatchEvents(v, x.from)
             && (v.trouble.Cancelled? ==> v.trouble.sent >= |BatchEvents(v, x.from)|))
        && (!HasWindow(x, v) ==> y == x)
    ensures var y := Polled(x, v);
      x.running && !y.running ==>
        && Run(y, views) == y
        && (v.trouble.MaxFails? || HasWindow(x, v))
        && (v.trouble.MaxFails? || v.trouble.ReadFails? ==> y.delivered == x.delivered)
        && (v.trouble.IncrementFails? ==> y.delivered == x.delivered + BatchEvents(v, x.from))
        && (v.trouble.Cancelled? ==>
             v.trouble.sent < |BatchEvents(v, x.from)|
             && y.delivered == x.delivered + BatchEvents(v, x.from)[..v.trouble.sent])
        && !v.trouble.Nothing?
  {
    var y := Polled(x, v);
    if v.max.Some? {
      CompareIsAntisymmetric(x.from, v.max.value);
    }
    if !y.running {
      StoppedStaysStopped(y, views);
    }
  }

  /** With no trouble the stream keeps running and misses nothing: after the last poll it is
      past every maximum it was told, so all the changes up to there are delivered. */
  lemma {:induction false} UntroubledPollingCatchesUp(world: World, x: Stream, views: seq<View>)
    requires Logged(All(world)) && HonestRun(world, x, views) && x.running
    requires forall v :: v in views ==> v.trouble.Nothing?
    ensures var y := Run(x, views);
      && y.running && Compare(x.from, y.from) <= 0
      && forall v :: v in views && v.max.Some? ==> Compare(v.max.value, y.from) < 0
    decreases |views|
  {
    CompareIsAntisymmetric(x.from, x.from);
    if views != [] {
      var v, y := views[0], Polled(x, views[0]);
      var z := Run(y, views[1..]);
      UntroubledPollingCatchesUp(world, y, views[1..]);
      if v.max.Some? {
        CompareIsAntisymmetric(x.from, v.max.value);
        if HasWindow(x, v) {
          PollReadsItsWindow(world, x.from, v);
          CompareIsNumeric(v.max.value, v.next);
        }
        CompareIsTransitive(v.max.value, y.from, z.from);
      }
      CompareIsTransitive(x.from, y.from, z.from);
    }
  }

  lemma {:induction false} NothingYet(cs: seq<Change>, start: Lsn)
    ensures Span(cs, start, Some(start)) == []
  {
    if cs != [] {
      NothingYet(cs[1..], start);
      CompareIsAntisymmetric(start, ChangeKey(cs[0]).lsn);
    }
  }

  /** Restarting from the position recorded with any change delivers again from the first
      change of its transaction, and everything after it. */
  lemma ResumeIsExact(world: World, c: Change, views: seq<View>)
    requires Logged(All(world)) && c in All(world)
    ensures ParsePosition(EventOf(c).position) == Some(ChangeKey(c).lsn)
    ensures HonestRun(world, Stream(ChangeKey(c).lsn, [], true), views) ==>
      var x := Run(Stream(ChangeKey(c).lsn, [], true), views);
      x.running ==> x.delivered == Events(SortedSpan(All(world), ChangeKey(c).lsn, Some(x.from)))
    ensures forall d :: d in All(world) ==>
      (d in Span(All(world), ChangeKey(c).lsn, None) <==> Compare(ChangeKey(c).lsn, ChangeKey(d).lsn) <= 0)
  {
    PositionRoundTrip(ChangeKey(c).lsn);
    if HonestRun(world, Stream(ChangeKey(c).lsn, [], true), views) {
      PollingIsExact(world, ChangeKey(c).lsn, views);
    }
    forall d | d in All(world)
      ensures d in Span(All(world), ChangeKey(c).lsn, None) <==> Compare(ChangeKey(c).lsn, ChangeKey(d).lsn) <= 0
    {
      SpanMember(All(world), ChangeKey(c).lsn, None, d);
    }
  }
}
