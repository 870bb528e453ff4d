/** What the PostgreSQL change stream promises over whole runs of crashes, restarts and
    interleavings of reader, consumer and server. */
module PgTheorems {
  import opened PgStream

  function Reached(log: Log, capacity: nat, events: seq<Event>): State {
    Run(log, capacity, Init(log), events)
  }

  lemma ReachedInv(log: Log, capacity: nat, events: seq<Event>)
    requires Orderly(log)
    ensures Inv(log, Reached(log, capacity, events))
  {
    InitInv(log);
    RunKeepsInv(log, capacity, Init(log), events);
  }

  /** At least once: every change at or below the slot's confirmed position had its loop
      body return, however often the stream died. */
  lemma ConfirmedWasReturned(log: Log, capacity: nat, events: seq<Event>, i: nat)
    requires Orderly(log)
    requires i < |log| && log[i].change && log[i].end <= Reached(log, capacity, events).confirmed
    ensures i in Reached(log, capacity, events).returned
  {
    ReachedInv(log, capacity, events);
  }

  /** So whatever the server does not send again has been returned. */
  lemma RestartSkipsNothing(log: Log, capacity: nat, events: seq<Event>, i: nat)
    requires Orderly(log)
    requires var s := Step(log, capacity, Reached(log, capacity, events), Restart);
      i < s.stream.next && i < |log| && log[i].change
    ensures i in Reached(log, capacity, events).returned
  {
    ReachedInv(log, capacity, events);
    ResumeIsFirst(log, Reached(log, capacity, events).confirmed, 0);
  }

  /** While the reader runs, every change sent so far was returned or is in flight. */
  lemma NothingIsDropped(log: Log, capacity: nat, events: seq<Event>, i: nat)
    requires Orderly(log) && !Reached(log, capacity, events).stream.reader.Exited?
    requires i < |log| && i < Reached(log, capacity, events).stream.next && log[i].change
    ensures var s := Reached(log, capacity, events); i in s.returned || i in InFlight(s.stream)
  {
    ReachedInv(log, capacity, events);
  }

  /** flushed equals lastPushed exactly when no event is in the blocked send, the channel
      or the consumer's hands. */
  lemma DrainedExactly(log: Log, capacity: nat, events: seq<Event>)
    requires Orderly(log)
    requires var x := Reached(log, capacity, events).stream; !x.reader.Exited? && !x.reader.StorePushed?
    ensures var x := Reached(log, capacity, events).stream; x.flushed == x.lastPushed <==> InFlight(x) == []
  {
    ReachedInv(log, capacity, events);
    var s := Reached(log, capacity, events);
    DrainedOrShort(log, s.stream, s.returned);
  }

  /** catchUp's plain stores never race an advance, advance's swap never fails, and the
      minimum taken when confirming never bites. */
  lemma StoresNeverRace(log: Log, capacity: nat, events: seq<Event>)
    requires Orderly(log) && !Reached(log, capacity, events).stream.reader.Exited?
    ensures var x := Reached(log, capacity, events).stream;
      && (x.reader.StoreFlushed? || x.reader.StorePushed? ==> x.consumer.Waiting? && x.channel == [])
      && (x.consumer.Swapping? ==> x.consumer.seen == x.flushed)
      && x.flushed <= x.received
  {
    ReachedInv(log, capacity, events);
    var s := Reached(log, capacity, events);
    var x := s.stream;
    FlushedIsBehind(log, s.returned, InFlight(x), x.next, x.received, Pushed(x), x.flushed);
    if !x.consumer.Waiting? {
      assert InFlight(x)[0] == x.consumer.i;
    }
    if x.channel != [] {
      assert x.channel[0] in InFlight(x);
    }
  }

  /** Confirmed positions only rise: flushed never falls within a subscription. */
  lemma PositionsNeverFall(log: Log, capacity: nat, events: seq<Event>, e: Event)
    requires Orderly(log) && !e.Restart?
    ensures var s := Reached(log, capacity, events); Step(log, capacity, s, e).stream.flushed >= s.stream.flushed
  {
    ReachedInv(log, capacity, events);
    StepRaises(log, capacity, Reached(log, capacity, events), e);
  }

  /** What is on its way to the server is in rising order, and no higher than flushed. */
  lemma AcksRise(log: Log, capacity: nat, events: seq<Event>, k: nat, m: nat)
    requires Orderly(log) && k < m < |Reached(log, capacity, events).stream.acks|
    ensures var x := Reached(log, capacity, events).stream; x.acks[k] <= x.acks[m] <= x.flushed
  {
    ReachedInv(log, capacity, events);
  }

  // ---- confirming -------------------------------------------------------------------

  /** Whenever the status ticker can fire, at rest or with its send blocked, the reader
      reports exactly how far the consumer has come, and touches nothing else; so does the
      final status of a reader that is exiting. */
  lemma StatusConfirms(log: Log, capacity: nat, events: seq<Event>)
    requires Orderly(log)
    ensures var s := Reached(log, capacity, events); var x := s.stream;
      && (x.reader.Idle? || x.reader.Emitting? ==>
           Step(log, capacity, s, Status) == s.(stream := x.(acks := x.acks + [x.flushed])))
      && (x.reader.Ending? ==>
           Step(log, capacity, s, FinalStatus(true)) == s.(stream := x.(acks := x.acks + [x.flushed], reader := Exited))
           && Step(log, capacity, s, FinalStatus(false)) == s.(stream := x.(reader := Exited)))
      && (x.reader.Idle? || x.reader.Emitting? ==> Step(log, capacity, s, Stop).stream.reader.Ending?)
  {
    if !Reached(log, capacity, events).stream.reader.Exited? {
      StoresNeverRace(log, capacity, events);
    }
  }

  function Applying(n: nat, keepHigher: bool): seq<Event> { seq(n, _ => Apply(keepHigher)) }

  /** What the server makes of a list of positions, one after the other. */
  lemma {:induction false} AppliesAll(log: Log, capacity: nat, s: State, keepHigher: bool)
    requires forall k, m :: 0 <= k < m < |s.stream.acks| ==> s.stream.acks[k] <= s.stream.acks[m]
    ensures var t := Run(log, capacity, s, Applying(|s.stream.acks|, keepHigher)); var acks := s.stream.acks;
      && t.stream == s.stream.(acks := []) && t.returned == s.returned
      && t.confirmed == (if acks == [] || acks[|acks| - 1] == 0 then s.confirmed
                         else if keepHigher then Max(s.confirmed, acks[|acks| - 1]) else acks[|acks| - 1])
    decreases |s.stream.acks|
  {
    var acks := s.stream.acks;
    if acks != [] {
      var t := Step(log, capacity, s, Apply(keepHigher));
      assert Applying(|acks|, keepHigher)[1..] == Applying(|acks| - 1, keepHigher);
      AppliesAll(log, capacity, t, keepHigher);
      if |acks| > 1 {
        assert t.stream.acks[|acks| - 2] == acks[|acks| - 1];
        assert acks[0] <= acks[|acks| - 1];
      }
    }
  }

  lemma ConfirmsOnce(log: Log, capacity: nat, s: State, keepHigher: bool)
    requires s.stream.flushed > 0
    requires forall k, m :: 0 <= k < m < |s.stream.acks| ==> s.stream.acks[k] <= s.stream.acks[m]
    requires forall k :: 0 <= k < |s.stream.acks| ==> s.stream.acks[k] <= s.stream.flushed
    requires Step(log, capacity, s, Status) == s.(stream := s.stream.(acks := s.stream.acks + [s.stream.flushed]))
    ensures var t := Run(log, capacity, s, [Status] + Applying(|s.stream.acks| + 1, keepHigher));
      && t.confirmed == (if keepHigher then Max(s.confirmed, s.stream.flushed) else s.stream.flushed)
      && t.stream == s.stream.(acks := [])
  {
    RunCons(log, capacity, s, Status, Applying(|s.stream.acks| + 1, keepHigher));
    AppliesAll(log, capacity, Step(log, capacity, s, Status), keepHigher);
  }

  /** So the slot comes to where the consumer is with neither reader nor consumer moving,
      even while the reader's send is blocked: one status and the server's reading of what
      was sent. A server that keeps a higher position it had keeps that. */
  lemma ConfirmsWhereItIs(log: Log, capacity: nat, events: seq<Event>, keepHigher: bool)
    requires Orderly(log) && Reached(log, capacity, events).stream.flushed > 0
    requires var x := Reached(log, capacity, events).stream; x.reader.Idle? || x.reader.Emitting?
    ensures var s := Reached(log, capacity, events);
      var t := Run(log, capacity, s, [Status] + Applying(|s.stream.acks| + 1, keepHigher));
      && t.confirmed == (if keepHigher then Max(s.confirmed, s.stream.flushed) else s.stream.flushed)
      && t.stream == s.stream.(acks := [])
  {
    StatusConfirms(log, capacity, events);
    ReachedInv(log, capacity, events);
    ConfirmsOnce(log, capacity, Reached(log, capacity, events), keepHigher);
  }

  /** The channel never holds more than it has room for. */
  lemma {:induction false} ChannelFits(log: Log, capacity: nat, s: State, events: seq<Event>)
    requires |s.stream.channel| <= capacity
    ensures |Run(log, capacity, s, events).stream.channel| <= capacity
    decreases |events|
  {
    if events != [] {
      ChannelFits(log, capacity, Step(log, capacity, s, events[0]), events[1..]);
    }
  }

  /** A loop body that stops the iteration closes the stream: the reader leaves with its final
      status, only then does the consumer, and the event it refused is neither returned for
      that nor confirmed by it. */
  lemma RefusalCloses(log: Log, capacity: nat, events: seq<Event>, sent: bool)
    requires Orderly(log)
    requires var x := Reached(log, capacity, events).stream;
      x.consumer.Refused? && (x.reader.Idle? || x.reader.Emitting?)
    ensures var s := Reached(log, capacity, events); var x := s.stream;
      && Step(log, capacity, s, ConsumerStep) == s
      && Run(log, capacity, s, [Stop] + ([FinalStatus(sent)] + ([ConsumerStep] + []))) ==
         s.(stream := x.(reader := Exited, consumer := Waiting, acks := x.acks + if sent then [x.flushed] else []))
  {
    StoresNeverRace(log, capacity, events);
    var s := Reached(log, capacity, events);
    var x := s.stream;
    var s1 := s.(stream := x.(reader := Ending(Abandoned(x.reader))));
    var s2 := s.(stream := x.(reader := Exited, acks := x.acks + if sent then [x.flushed] else []));
    assert x.acks + [] == x.acks;
    RunCons(log, capacity, s, Stop, [FinalStatus(sent)] + ([ConsumerStep] + []));
    RunCons(log, capacity, s1, FinalStatus(sent), [ConsumerStep] + []);
    RunCons(log, capacity, s2, ConsumerStep, []);
  }

  // ---- catching up ------------------------------------------------------------------

  /** catchUp with nobody else moving. */
  function CaughtUp(x: Stream, h: nat): Stream {
    if x.channel != [] || x.lastPushed != x.flushed || h <= x.lastPushed then x
    else x.(flushed := h, lastPushed := h)
  }

  lemma CatchUpAlone(x: Stream, capacity: nat, h: nat)
    requires x.reader.Idle?
    ensures var c := x.(reader := CheckLength(h));
      Reading(Reading(Reading(Reading(c, capacity), capacity), capacity), capacity) == CaughtUp(x, h)
  {
  }

  lemma RunCons(log: Log, capacity: nat, s: State, e: Event, rest: seq<Event>)
    ensures Run(log, capacity, s, [e] + rest) == Run(log, capacity, Step(log, capacity, s, e), rest)
  {
    assert ([e] + rest)[1..] == rest;
  }

  /** The reader runs on its own: hears of position h, catches up, and sends a status. */
  function Hearing(h: nat): seq<Event> {
    [Keepalive(h)] + ([ReaderStep] + ([ReaderStep] + ([ReaderStep] + ([ReaderStep] + ([Status] + [])))))
  }

  lemma HearingRuns(log: Log, capacity: nat, s: State, h: nat)
    requires s.stream.reader.Idle? && Ahead(log, s.stream.next, h)
    ensures var x := s.stream.(received := Max(s.stream.received, h));
      Run(log, capacity, s, Hearing(h)) == s.(stream := Confirming(CaughtUp(x, h)))
  {
    var x := s.stream.(received := Max(s.stream.received, h));
    CatchUpAlone(x, capacity, h);
    var s0 := s.(stream := x.(reader := CheckLength(h)));
    var s1 := s.(stream := Reading(s0.stream, capacity));
    var s2 := s.(stream := Reading(s1.stream, capacity));
    var s3 := s.(stream := Reading(s2.stream, capacity));
    RunCons(log, capacity, s, Keepalive(h),
      [ReaderStep] + ([ReaderStep] + ([ReaderStep] + ([ReaderStep] + ([Status] + [])))));
    RunCons(log, capacity, s0, ReaderStep, [ReaderStep] + ([ReaderStep] + ([ReaderStep] + ([Status] + []))));
    RunCons(log, capacity, s1, ReaderStep, [ReaderStep] + ([ReaderStep] + ([Status] + [])));
    RunCons(log, capacity, s2, ReaderStep, [ReaderStep] + ([Status] + []));
    RunCons(log, capacity, s3, ReaderStep, [Status] + []);
    RunCons(log, capacity, s.(stream := CaughtUp(x, h)), Status, []);
  }

  /** A drained stream always catches up: a keepalive with a higher position, heard out,
      puts exactly that position on its way to the server. */
  lemma DrainedStreamCatchesUp(log: Log, capacity: nat, events: seq<Event>, h: nat)
    requires Orderly(log)
    requires var x := Reached(log, capacity, events).stream;
      x.reader.Idle? && InFlight(x) == [] && h > x.flushed && Ahead(log, x.next, h)
    ensures var s := Reached(log, capacity, events); var t := Run(log, capacity, s, Hearing(h));
      t.stream.acks == s.stream.acks + [h] && t.stream.flushed == h && t.stream.reader.Idle?
  {
    DrainedExactly(log, capacity, events);
    var s := Reached(log, capacity, events);
    HearingRuns(log, capacity, s, h);
    assert s.stream.channel == [];
  }

  /** One that is not drained keeps its confirmed position. */
  lemma BusyStreamHolds(log: Log, capacity: nat, events: seq<Event>, h: nat)
    requires Orderly(log)
    requires var x := Reached(log, capacity, events).stream;
      x.reader.Idle? && InFlight(x) != [] && Ahead(log, x.next, h)
    ensures var s := Reached(log, capacity, events);
      Run(log, capacity, s, Hearing(h)).stream.acks == s.stream.acks + [s.stream.flushed]
  {
    StoresNeverRace(log, capacity, events);
    DrainedExactly(log, capacity, events);
    HearingRuns(log, capacity, Reached(log, capacity, events), h);
  }

  // ---- the condition on the log is exact --------------------------------------------

  /** From one state to another by some events. */
  ghost predicate Leads(log: Log, capacity: nat, s: State, t: State) {
    exists events: seq<Event> :: Run(log, capacity, s, events) == t
  }

  lemma {:induction false} RunConcat(log: Log, capacity: nat, s: State, a: seq<Event>, b: seq<Event>)
    ensures Run(log, capacity, s, a + b) == Run(log, capacity, Run(log, capacity, s, a), b)
    decreases |a|
  {
    if a == [] {
      assert a + b == b;
    } else {
      assert (a + b)[0] == a[0] && (a + b)[1..] == a[1..] + b;
      RunConcat(log, capacity, Step(log, capacity, s, a[0]), a[1..], b);
    }
  }

  lemma Then(log: Log, capacity: nat, s: State, t: State, e: Event)
    requires Leads(log, capacity, s, t)
    ensures Leads(log, capacity, s, Step(log, capacity, t, e))
  {
    var events: seq<Event> :| Run(log, capacity, s, events) == t;
    RunConcat(log, capacity, s, events, [e]);
    RunCons(log, capacity, t, e, []);
    assert [e] + [] == [e];
  }

  /** The first n records keep turn. */
  ghost predicate OrderlyTo(log: Log, n: nat)
    requires n <= |log|
  {
    && (forall j :: 0 <= j < n && log[j].change ==> log[j].end > 0)
    && (forall i, j :: 0 <= i < j < n && log[j].change ==> InTurn(log[i], log[j]))
  }

  /** The last change before n, or zero. */
  function LastChange(log: Log, n: nat): nat
    requires n <= |log|
  {
    if n == 0 then 0 else if log[n - 1].change then log[n - 1].end else LastChange(log, n - 1)
  }

  function Furthest(log: Log, n: nat): nat
    requires n <= |log|
  {
    if n == 0 then 0 else Max(Furthest(log, n - 1), log[n - 1].end)
  }

  function Changes(log: Log, n: nat): set<nat>
    requires n <= |log|
  {
    if n == 0 then {} else if log[n - 1].change then Changes(log, n - 1) + {n - 1} else Changes(log, n - 1)
  }

  lemma {:induction false} LastChangeIs(log: Log, n: nat)
    requires n <= |log| && OrderlyTo(log, n)
    ensures LastChange(log, n) <= Furthest(log, n)
    ensures forall i :: 0 <= i < n && log[i].change ==> log[i].end <= LastChange(log, n)
    ensures LastChange(log, n) == 0 || exists i :: 0 <= i < n && log[i].change && log[i].end == LastChange(log, n)
    ensures forall i :: i in Changes(log, n) ==> i < n
  {
    if n > 0 {
      LastChangeIs(log, n - 1);
      if log[n - 1].change {
        forall i | 0 <= i < n && log[i].change ensures log[i].end <= log[n - 1].end {
          assert i < n - 1 ==> InTurn(log[i], log[n - 1]);
        }
      }
    }
  }

  /** Everything before record n has been sent, delivered, returned and advanced over. */
  function Caught(log: Log, n: nat): State
    requires n <= |log|
  {
    State(Stream(Furthest(log, n), LastChange(log, n), LastChange(log, n), [], Idle, Waiting, [], n),
          0, Changes(log, n))
  }

  lemma OneMore(log: Log, capacity: nat, s: State, n: nat)
    requires capacity > 0 && n < |log| && OrderlyTo(log, n + 1) && Leads(log, capacity, s, Caught(log, n))
    ensures Leads(log, capacity, s, Caught(log, n + 1))
  {
    var c := Caught(log, n);
    Then(log, capacity, s, c, XLogData);
    if log[n].change {
      LastChangeIs(log, n);
      if LastChange(log, n) != 0 {
        var i :| 0 <= i < n && log[i].change && log[i].end == LastChange(log, n);
        assert InTurn(log[i], log[n]);
      }
      var x := c.stream.(received := Furthest(log, n + 1), lastPushed := log[n].end, next := n + 1);
      var c1 := c.(stream := x.(reader := Emitting(n)));
      var c2 := c.(stream := x.(channel := [n]));
      var c3 := c.(stream := x.(consumer := Yielding(n)));
      DeliveringOne(log, capacity, s, c1, c2, c3, n);
    }
  }

  lemma DeliveringOne(log: Log, capacity: nat, s: State, c1: State, c2: State, c3: State, n: nat)
    requires capacity > 0 && n < |log| && log[n].change
    requires var x := Caught(log, n).stream.(received := Furthest(log, n + 1), lastPushed := log[n].end, next := n + 1);
      && LastChange(log, n) < log[n].end
      && c1 == Caught(log, n).(stream := x.(reader := Emitting(n)))
      && c2 == Caught(log, n).(stream := x.(channel := [n]))
      && c3 == Caught(log, n).(stream := x.(consumer := Yielding(n)))
    requires Leads(log, capacity, s, c1)
    ensures Leads(log, capacity, s, Caught(log, n + 1))
  {
    var x := c2.stream.(channel := []);
    var returned := Changes(log, n) + {n};
    Then(log, capacity, s, c1, ReaderStep);
    assert Step(log, capacity, c1, ReaderStep) == c2 by {
      assert [] + [n] == [n];
    }
    Then(log, capacity, s, c2, Take);
    assert Step(log, capacity, c2, Take) == c3 by {
      assert [n][1..] == [];
    }
    Then(log, capacity, s, c3, Yield(true));
    var c4 := State(x.(consumer := Returned(n)), 0, returned);
    Then(log, capacity, s, c4, ConsumerStep);
    Then(log, capacity, s, State(x.(consumer := Swapping(n, x.flushed)), 0, returned), ConsumerStep);
  }

  /** A fresh stream is caught up to where the server starts. */
  lemma {:induction false} StartsCaughtUp(log: Log, n: nat)
    requires n <= |log| && n <= Resume(log, 0, 0) && OrderlyTo(log, n)
    ensures LastChange(log, n) == 0 && Furthest(log, n) == 0 && Changes(log, n) == {}
  {
    ResumeIsFirst(log, 0, 0);
    if n > 0 {
      StartsCaughtUp(log, n - 1);
    }
  }

  lemma {:induction false} CatchesUp(log: Log, capacity: nat, n: nat)
    requires capacity > 0 && Resume(log, 0, 0) <= n <= |log| && OrderlyTo(log, n)
    ensures Leads(log, capacity, Init(log), Caught(log, n))
  {
    if n == Resume(log, 0, 0) {
      StartsCaughtUp(log, n);
      assert Run(log, capacity, Init(log), []) == Caught(log, n);
    } else {
      CatchesUp(log, capacity, n - 1);
      OneMore(log, capacity, Init(log), n - 1);
    }
  }

  /** The first record that breaks the order, if any does. */
  lemma {:induction false} FirstOutOfTurn(log: Log, n: nat) returns (j: nat)
    requires n <= |log| && !OrderlyTo(log, n)
    ensures j < n && OrderlyTo(log, j) && !OrderlyTo(log, j + 1)
  {
    if OrderlyTo(log, n - 1) {
      j := n - 1;
    } else {
      j := FirstOutOfTurn(log, n - 1);
    }
  }

  /** A status from a caught-up stream, applied. */
  lemma ConfirmsCaughtUp(log: Log, capacity: nat, s: State, t: State)
    requires Leads(log, capacity, s, t) && t.stream.reader.Idle? && t.stream.acks == []
      && 0 < t.stream.flushed <= t.stream.received
    ensures Leads(log, capacity, s, t.(confirmed := t.stream.flushed))
  {
    var told := t.(stream := Confirming(t.stream));
    Then(log, capacity, s, t, Status);
    Then(log, capacity, s, told, Apply(false));
    assert [] + [t.stream.flushed] == [t.stream.flushed] && [t.stream.flushed][1..] == [];
  }

  /** A keepalive to a drained stream with a higher position, heard out. */
  lemma HearsKeepalive(log: Log, capacity: nat, s: State, n: nat, h: nat)
    requires n <= |log| && Leads(log, capacity, s, Caught(log, n)) && Ahead(log, n, h) && h > LastChange(log, n)
    ensures var x := Caught(log, n).stream.(received := Max(Furthest(log, n), h), flushed := h, lastPushed := h);
      Leads(log, capacity, s, Caught(log, n).(stream := x))
  {
    var c := Caught(log, n);
    var x := c.stream.(received := Max(Furthest(log, n), h));
    Then(log, capacity, s, c, Keepalive(h));
    Then(log, capacity, s, c.(stream := x.(reader := CheckLength(h))), ReaderStep);
    Then(log, capacity, s, c.(stream := x.(reader := CheckDrained(h))), ReaderStep);
    Then(log, capacity, s, c.(stream := x.(reader := StoreFlushed(h))), ReaderStep);
    Then(log, capacity, s, c.(stream := x.(flushed := h, reader := StorePushed(h))), ReaderStep);
  }

  /** From a record out of turn, a run that confirms a change no loop body has seen. */
  lemma OutOfTurnIsLost(log: Log, capacity: nat, j: nat) returns (t: State)
    requires capacity > 0 && j < |log| && OrderlyTo(log, j) && !OrderlyTo(log, j + 1)
    ensures Leads(log, capacity, Init(log), t)
    ensures log[j].change && log[j].end <= t.confirmed && j !in t.returned
  {
    var start := Init(log);
    ResumeIsFirst(log, 0, 0);
    if log[j].end == 0 {
      assert Run(log, capacity, start, []) == start;
      t := start;
    } else {
      var i :| 0 <= i < j && !InTurn(log[i], log[j]);
      LastChangeIs(log, j);
      LastChangeIs(log, i);
      if LastChange(log, j) >= log[j].end {
        CatchesUp(log, capacity, j);
        ConfirmsCaughtUp(log, capacity, start, Caught(log, j));
        t := Caught(log, j).(confirmed := LastChange(log, j));
      } else {
        CatchesUp(log, capacity, i);
        ChangesFall(log, i, j);
        HearsKeepalive(log, capacity, start, i, log[j].end);
        var x := Caught(log, i).stream.(
          received := Max(Furthest(log, i), log[j].end), flushed := log[j].end, lastPushed := log[j].end);
        var heard := Caught(log, i).(stream := x);
        ConfirmsCaughtUp(log, capacity, start, heard);
        t := heard.(confirmed := log[j].end);
      }
    }
  }

  lemma {:induction false} ChangesFall(log: Log, i: nat, j: nat)
    requires i <= j <= |log| && OrderlyTo(log, j)
    ensures LastChange(log, i) <= LastChange(log, j)
  {
    LastChangeIs(log, i);
    LastChangeIs(log, j);
  }

  /** At-least-once holds of a log, over every run of keepalives, crashes and restarts, if
      and only if its changes keep turn: each ends above zero, after every earlier change
      and no earlier than any other record before it. */
  lemma AtLeastOnceExactly(log: Log, capacity: nat)
    requires capacity > 0
    ensures (forall events: seq<Event> ::
               AllReturned(log, Reached(log, capacity, events).returned, Reached(log, capacity, events).confirmed))
            <==> Orderly(log)
  {
    if Orderly(log) {
      forall events: seq<Event>
        ensures AllReturned(log, Reached(log, capacity, events).returned, Reached(log, capacity, events).confirmed)
      {
        ReachedInv(log, capacity, events);
      }
    } else {
      assert !OrderlyTo(log, |log|);
      var j := FirstOutOfTurn(log, |log|);
      var t := OutOfTurnIsLost(log, capacity, j);
      var events: seq<Event> :| Run(log, capacity, Init(log), events) == t;
      assert !AllReturned(log, Reached(log, capacity, events).returned, Reached(log, capacity, events).confirmed);
    }
  }

  /** Two changes whose ends go backwards: confirming the first confirms the second, which
      no loop body has seen. */
  lemma BackwardsEndsAreLost(high: nat, low: nat)
    requires 0 < low < high
    ensures var log := [Record(high, true), Record(low, true)];
      exists events: seq<Event> :: var s := Reached(log, 1, events);
        s.confirmed == high && log[1].change && log[1].end <= s.confirmed && 1 !in s.returned
  {
    var log := [Record(high, true), Record(low, true)];
    LastChangeIs(log, 1);
    assert Resume(log, 0, 0) == 0;
    CatchesUp(log, 1, 1);
    ConfirmsCaughtUp(log, 1, Init(log), Caught(log, 1));
    var events: seq<Event> :| Run(log, 1, Init(log), events) == Caught(log, 1).(confirmed := high);
    assert Reached(log, 1, events).confirmed == high;
  }
}
