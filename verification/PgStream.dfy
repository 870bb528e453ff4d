/** The PostgreSQL change stream: a reader goroutine and a consumer sharing three atomics
    and a bounded channel, a server that resumes strictly after what was confirmed to it,
    and any number of crashes and resubscriptions. */
module PgStream {

  /** One WAL record: where it ends, and whether it carries a row change. */
  datatype Record = Record(end: nat, change: bool)

  type Log = seq<Record>

  /** A change ends above zero, after every earlier change, and no earlier than any other
      record before it. Records that carry no change may end where they like otherwise. */
  ghost predicate Orderly(log: Log) {
    && (forall j :: 0 <= j < |log| && log[j].change ==> log[j].end > 0)
    && (forall i, j :: 0 <= i < j < |log| && log[j].change ==> InTurn(log[i], log[j]))
  }

  predicate InTurn(earlier: Record, change: Record) {
    earlier.end <= change.end && (earlier.change ==> earlier.end < change.end)
  }

  datatype ReaderPc =
    | Idle
    | Emitting(i: nat)                // lastPushed is stored, the send is blocked
    | CheckLength(h: nat)             // catchUp, in its four loads and stores
    | CheckDrained(h: nat)
    | StoreFlushed(h: nat)
    | StorePushed(h: nat)
    | Ending(abandoned: seq<nat>)     // channel closed; the final status is still to be sent
    | Exited

  datatype ConsumerPc =
    | Waiting
    | Yielding(i: nat)
    | Returned(i: nat)                // the loop body returned; advance loads next
    | Swapping(i: nat, seen: nat)     // advance is about to compare and swap
    | Refused(i: nat)                 // the loop body stopped the iteration; in Close

  datatype Stream = Stream(
    received: nat,
    lastPushed: nat,
    flushed: nat,
    channel: seq<nat>,
    reader: ReaderPc,
    consumer: ConsumerPc,
    acks: seq<nat>,       // flush positions on their way to the server
    next: nat)            // the record the server sends next

  /** What outlives a stream: the slot's confirmed position, and the records whose loop
      body returned. */
  datatype State = State(stream: Stream, confirmed: nat, returned: set<nat>)

  datatype Event =
    | XLogData
    | Keepalive(h: nat)
    | ReaderStep
    | Status
    | Stop
    | FinalStatus(sent: bool)
    | Take
    | Yield(more: bool)
    | ConsumerStep
    | Apply(keepHigher: bool)
    | Restart

  function Max(a: nat, b: nat): nat { if a < b then b else a }

  function Min(a: nat, b: nat): nat { if a < b then a else b }

  /** The first record ending after v. */
  function Resume(log: Log, v: nat, from: nat): (n: nat)
    requires from <= |log|
    decreases |log| - from
  {
    if from == |log| || log[from].end > v then from else Resume(log, v, from + 1)
  }

  function Subscribed(log: Log, confirmed: nat): Stream {
    Stream(0, 0, 0, [], Idle, Waiting, [], Resume(log, confirmed, 0))
  }

  function Init(log: Log): State { State(Subscribed(log, 0), 0, {}) }

  /** The server's word that it has sent everything up to h: what it sends next ends after. */
  predicate Ahead(log: Log, next: nat, h: nat) {
    next < |log| ==> h < log[next].end
  }

  // ---- the reader -------------------------------------------------------------------

  function Receiving(log: Log, x: Stream): Stream
    requires x.next < |log|
  {
    var i := x.next;
    var y := x.(received := Max(x.received, log[i].end), next := i + 1);
    if log[i].change then y.(lastPushed := log[i].end, reader := Emitting(i)) else y
  }

  function Reading(x: Stream, capacity: nat): Stream {
    match x.reader
    case Emitting(i) => if |x.channel| < capacity then x.(channel := x.channel + [i], reader := Idle) else x
    case CheckLength(h) => x.(reader := if |x.channel| != 0 then Idle else CheckDrained(h))
    case CheckDrained(h) =>
      x.(reader := if x.lastPushed != x.flushed || h <= x.lastPushed then Idle else StoreFlushed(h))
    case StoreFlushed(h) => x.(flushed := h, reader := StorePushed(h))
    case StorePushed(h) => x.(lastPushed := h, reader := Idle)
    case _ => x
  }

  function Confirming(x: Stream): Stream { x.(acks := x.acks + [Min(x.flushed, x.received)]) }

  function Abandoned(r: ReaderPc): seq<nat> { if r.Emitting? then [r.i] else [] }

  // ---- the consumer -----------------------------------------------------------------

  function Consuming(log: Log, x: Stream): Stream {
    match x.consumer
    case Returned(i) =>
      if i >= |log| || log[i].end <= x.flushed then x.(consumer := Waiting) else x.(consumer := Swapping(i, x.flushed))
    case Swapping(i, seen) =>
      if i >= |log| || x.flushed != seen then x.(consumer := Returned(i))
      else x.(flushed := log[i].end, consumer := Waiting)
    case Refused(i) => if x.reader.Exited? then x.(consumer := Waiting) else x
    case _ => x
  }

  /** A standby status of zero confirms nothing; a lower one may or may not move the slot. */
  function Applied(confirmed: nat, ack: nat, keepHigher: bool): nat {
    if ack == 0 || (keepHigher && ack < confirmed) then confirmed else ack
  }

  function Step(log: Log, capacity: nat, s: State, e: Event): State {
    var x := s.stream;
    match e
    case XLogData => if x.reader.Idle? && x.next < |log| then s.(stream := Receiving(log, x)) else s
    case Keepalive(h) =>
      if x.reader.Idle? && Ahead(log, x.next, h)
      then s.(stream := x.(received := Max(x.received, h), reader := CheckLength(h))) else s
    case ReaderStep => s.(stream := Reading(x, capacity))
    case Status => if x.reader.Idle? || x.reader.Emitting? then s.(stream := Confirming(x)) else s
    case Stop =>
      if x.reader.Idle? || x.reader.Emitting? then s.(stream := x.(reader := Ending(Abandoned(x.reader)))) else s
    case FinalStatus(sent) =>
      if x.reader.Ending? then s.(stream := (if sent then Confirming(x) else x).(reader := Exited)) else s
    case Take =>
      if x.consumer.Waiting? && x.channel != []
      then s.(stream := x.(consumer := Yielding(x.channel[0]), channel := x.channel[1..])) else s
    case Yield(more) =>
      if !x.consumer.Yielding? then s
      else if more then s.(stream := x.(consumer := Returned(x.consumer.i)), returned := s.returned + {x.consumer.i})
      else s.(stream := x.(consumer := Refused(x.consumer.i)))
    case ConsumerStep => s.(stream := Consuming(log, x))
    case Apply(keepHigher) =>
      if x.acks == [] then s
      else s.(stream := x.(acks := x.acks[1..]), confirmed := Applied(s.confirmed, x.acks[0], keepHigher))
    case Restart => s.(stream := Subscribed(log, s.confirmed))
  }

  function Run(log: Log, capacity: nat, s: State, events: seq<Event>): State
    decreases |events|
  {
    if events == [] then s else Run(log, capacity, Step(log, capacity, s, events[0]), events[1..])
  }

  // ---- what is in flight ------------------------------------------------------------

  function Hand(c: ConsumerPc): seq<nat> { if c.Waiting? then [] else [c.i] }

  function Tail(r: ReaderPc): seq<nat> {
    match r
    case Emitting(i) => [i]
    case Ending(abandoned) => abandoned
    case _ => []
  }

  /** The events handed to the pipeline and not confirmed, oldest first. */
  function InFlight(x: Stream): seq<nat> { Hand(x.consumer) + x.channel + Tail(x.reader) }

  /** Every change still to be sent ends after v. */
  ghost predicate Beyond(log: Log, next: nat, v: nat) {
    forall j :: next <= j < |log| && log[j].change ==> v < log[j].end
  }

  lemma AheadIsBeyond(log: Log, next: nat, v: nat)
    requires Orderly(log) && Ahead(log, next, v)
    ensures Beyond(log, next, v)
  {
    forall j | next <= j < |log| && log[j].change ensures v < log[j].end {
      assert j > next ==> InTurn(log[next], log[j]);
    }
  }

  /** Every change up to position v has had its loop body return. */
  ghost predicate AllReturned(log: Log, returned: set<nat>, v: nat) {
    forall i :: 0 <= i < |log| && log[i].change && log[i].end <= v ==> i in returned
  }

  /** The changes sent so far are those returned and those in flight, in log order. */
  ghost predicate Carried(log: Log, returned: set<nat>, p: seq<nat>, next: nat) {
    && next <= |log|
    && (forall k :: 0 <= k < |p| ==> p[k] < next && log[p[k]].change)
    && (forall k, m :: 0 <= k < m < |p| ==> p[k] < p[m])
    && (forall i :: 0 <= i < next && log[i].change ==> i in returned || i in p)
  }

  /** lastPushed is the newest event in flight and flushed is short of the oldest; with
      none in flight they are equal. */
  ghost predicate Bracketed(log: Log, p: seq<nat>, flushed: nat, lastPushed: nat)
    requires forall k :: 0 <= k < |p| ==> p[k] < |log|
  {
    if p == [] then flushed == lastPushed
    else flushed < log[p[0]].end && lastPushed == log[p[|p| - 1]].end
  }

  ghost predicate ReaderOk(log: Log, x: Stream) {
    match x.reader
    case CheckLength(h) => Beyond(log, x.next, h) && h <= x.received
    case CheckDrained(h) => Beyond(log, x.next, h) && h <= x.received
    case StoreFlushed(h) => Beyond(log, x.next, h) && h <= x.received && InFlight(x) == [] && x.flushed < h
    case StorePushed(h) => InFlight(x) == []
    case _ => true
  }

  ghost predicate ConsumerOk(log: Log, x: Stream, returned: set<nat>) {
    match x.consumer
    case Returned(i) => i in returned
    case Swapping(i, seen) => i in returned && seen == x.flushed
    case _ => true
  }

  /** The relation between the three positions, the log and what is in flight. */
  ghost predicate Placed(log: Log, returned: set<nat>, p: seq<nat>, next: nat,
                         received: nat, lastPushed: nat, flushed: nat) {
    && Carried(log, returned, p, next)
    && Bracketed(log, p, flushed, lastPushed)
    && Beyond(log, next, lastPushed) && lastPushed <= received
  }

  /** catchUp's second store brings lastPushed up to flushed. */
  function Pushed(x: Stream): nat { if x.reader.StorePushed? then x.reader.h else x.lastPushed }

  ghost predicate Flowing(log: Log, x: Stream, returned: set<nat>) {
    && Placed(log, returned, InFlight(x), x.next, x.received, Pushed(x), x.flushed)
    && ReaderOk(log, x) && ConsumerOk(log, x, returned)
  }

  ghost predicate AcksOk(log: Log, x: Stream, returned: set<nat>) {
    && (forall k :: 0 <= k < |x.acks| ==> AllReturned(log, returned, x.acks[k]) && x.acks[k] <= x.flushed)
    && (forall k, m :: 0 <= k < m < |x.acks| ==> x.acks[k] <= x.acks[m])
  }

  /** advance only ever swaps in a higher position. */
  ghost predicate Raises(log: Log, c: ConsumerPc) {
    c.Swapping? && c.i < |log| ==> c.seen < log[c.i].end
  }

  ghost predicate Inv(log: Log, s: State) {
    && AllReturned(log, s.returned, s.confirmed)
    && Raises(log, s.stream.consumer)
    && AcksOk(log, s.stream, s.returned)
    && (s.stream.reader.Exited? || Flowing(log, s.stream, s.returned))
  }

  // ---- lemmas -----------------------------------------------------------------------

  lemma {:induction false} ResumeIsFirst(log: Log, v: nat, from: nat)
    requires from <= |log| && forall i :: 0 <= i < from ==> log[i].end <= v
    ensures var n := Resume(log, v, from);
      n <= |log| && Ahead(log, n, v) && forall i :: 0 <= i < n ==> log[i].end <= v
    decreases |log| - from
  {
    if from < |log| && log[from].end <= v {
      ResumeIsFirst(log, v, from + 1);
    }
  }

  lemma PlacedIsReturned(log: Log, returned: set<nat>, p: seq<nat>,
                         next: nat, received: nat, lastPushed: nat, flushed: nat)
    requires Orderly(log) && Placed(log, returned, p, next, received, lastPushed, flushed) && flushed <= lastPushed
    ensures AllReturned(log, returned, flushed)
  {
    assert forall k :: 0 <= k < |p| ==> p[0] <= p[k] && log[p[0]].end <= log[p[k]].end;
    forall i | 0 <= i < |log| && log[i].change && log[i].end <= flushed ensures i in returned {
      assert i < next;
    }
  }

  /** What flushed covers was returned: everything in flight ends after it. */
  lemma FlushedIsReturned(log: Log, x: Stream, returned: set<nat>)
    requires Orderly(log) && Flowing(log, x, returned)
    ensures AllReturned(log, returned, x.flushed)
  {
    FlushedIsBehind(log, returned, InFlight(x), x.next, x.received, Pushed(x), x.flushed);
    PlacedIsReturned(log, returned, InFlight(x), x.next, x.received, Pushed(x), x.flushed);
  }

  lemma ReadingRaises(log: Log, x: Stream, returned: set<nat>, capacity: nat)
    requires Flowing(log, x, returned)
    ensures Reading(x, capacity).flushed >= x.flushed
  {
  }

  lemma ConsumingRaises(log: Log, x: Stream)
    requires Raises(log, x.consumer)
    ensures Consuming(log, x).flushed >= x.flushed
  {
  }

  /** Only advance and catchUp move flushed, and only up. */
  lemma StepRaises(log: Log, capacity: nat, s: State, e: Event)
    requires Inv(log, s) && !e.Restart?
    ensures Step(log, capacity, s, e).stream.flushed >= s.stream.flushed
  {
    match e
    case ReaderStep =>
      if !s.stream.reader.Exited? {
        ReadingRaises(log, s.stream, s.returned, capacity);
      }
    case ConsumerStep => ConsumingRaises(log, s.stream);
    case _ =>
  }

  lemma SubscribedFlows(log: Log, confirmed: nat, returned: set<nat>)
    requires Orderly(log) && AllReturned(log, returned, confirmed)
    ensures Flowing(log, Subscribed(log, confirmed), returned)
  {
    ResumeIsFirst(log, confirmed, 0);
  }

  /** flushed never passes the newest event handed over. */
  lemma FlushedIsBehind(log: Log, returned: set<nat>, p: seq<nat>,
                        next: nat, received: nat, lastPushed: nat, flushed: nat)
    requires Orderly(log) && Placed(log, returned, p, next, received, lastPushed, flushed)
    ensures flushed <= lastPushed
  {
    if p != [] {
      assert p[0] <= p[|p| - 1];
    }
  }

  lemma PlacedWithNext(log: Log, returned: set<nat>, p: seq<nat>, next: nat,
                       received: nat, lastPushed: nat, flushed: nat)
    requires Orderly(log) && Placed(log, returned, p, next, received, lastPushed, flushed) && next < |log|
    ensures log[next].change ==>
      Placed(log, returned, p + [next], next + 1, Max(received, log[next].end), log[next].end, flushed)
    ensures !log[next].change ==>
      Placed(log, returned, p, next + 1, Max(received, log[next].end), lastPushed, flushed)
  {
    FlushedIsBehind(log, returned, p, next, received, lastPushed, flushed);
    assert (p + [next])[0] == if p == [] then next else p[0];
  }

  lemma ReceivingFlows(log: Log, x: Stream, returned: set<nat>)
    requires Orderly(log) && Flowing(log, x, returned) && x.reader.Idle? && x.next < |log|
    ensures Flowing(log, Receiving(log, x), returned)
  {
    PlacedWithNext(log, returned, InFlight(x), x.next, x.received, x.lastPushed, x.flushed);
    if log[x.next].change {
      assert InFlight(Receiving(log, x)) == InFlight(x) + [x.next];
    } else {
      assert InFlight(Receiving(log, x)) == InFlight(x);
    }
  }

  lemma EmittingFlows(log: Log, capacity: nat, x: Stream, returned: set<nat>)
    requires Flowing(log, x, returned) && x.reader.Emitting?
    ensures Flowing(log, Reading(x, capacity), returned)
  {
    assert InFlight(Reading(x, capacity)) == InFlight(x);
  }

  lemma DrainedOrShort(log: Log, x: Stream, returned: set<nat>)
    requires Orderly(log) && Flowing(log, x, returned) && !x.reader.StorePushed?
    ensures x.lastPushed == x.flushed <==> InFlight(x) == []
  {
    var p := InFlight(x);
    if p != [] {
      assert p[0] <= p[|p| - 1];
    }
  }

  /** Leaving or passing catchUp's length check changes nothing else. */
  lemma CheckingLengthFlows(log: Log, capacity: nat, x: Stream, returned: set<nat>)
    requires Flowing(log, x, returned) && x.reader.CheckLength?
    ensures Flowing(log, Reading(x, capacity), returned)
  {
    assert InFlight(Reading(x, capacity)) == InFlight(x);
  }

  /** catchUp goes ahead only when nothing is in flight. */
  lemma CheckingDrainedFlows(log: Log, capacity: nat, x: Stream, returned: set<nat>)
    requires Orderly(log) && Flowing(log, x, returned) && x.reader.CheckDrained?
    ensures Flowing(log, Reading(x, capacity), returned)
  {
    assert InFlight(Reading(x, capacity)) == InFlight(x);
    DrainedOrShort(log, x, returned);
  }

  lemma StoringFlushedFlows(log: Log, capacity: nat, x: Stream, returned: set<nat>)
    requires Flowing(log, x, returned) && x.reader.StoreFlushed?
    ensures Flowing(log, Reading(x, capacity), returned) && Reading(x, capacity).flushed >= x.flushed
  {
    assert InFlight(Reading(x, capacity)) == InFlight(x);
  }

  lemma StoringPushedFlows(log: Log, capacity: nat, x: Stream, returned: set<nat>)
    requires Flowing(log, x, returned) && x.reader.StorePushed?
    ensures Flowing(log, Reading(x, capacity), returned)
  {
    assert InFlight(Reading(x, capacity)) == InFlight(x);
  }

  lemma ReadingFlows(log: Log, capacity: nat, x: Stream, returned: set<nat>)
    requires Orderly(log) && Flowing(log, x, returned)
    ensures Flowing(log, Reading(x, capacity), returned) && Reading(x, capacity).flushed >= x.flushed
  {
    match x.reader
    case Emitting(_) => EmittingFlows(log, capacity, x, returned);
    case CheckLength(_) => CheckingLengthFlows(log, capacity, x, returned);
    case CheckDrained(_) => CheckingDrainedFlows(log, capacity, x, returned);
    case StoreFlushed(_) => StoringFlushedFlows(log, capacity, x, returned);
    case StorePushed(_) => StoringPushedFlows(log, capacity, x, returned);
    case _ =>
  }

  /** The oldest event in flight is done: the position moves onto it. */
  lemma PlacedWithoutFirst(log: Log, returned: set<nat>, p: seq<nat>,
                           next: nat, received: nat, lastPushed: nat, flushed: nat)
    requires Orderly(log) && Placed(log, returned, p, next, received, lastPushed, flushed)
      && p != [] && p[0] in returned
    ensures Placed(log, returned, p[1..], next, received, lastPushed, log[p[0]].end)
  {
    var rest := p[1..];
    assert p == [p[0]] + rest;
    if rest != [] {
      assert p[0] < p[1] && InTurn(log[p[0]], log[p[1]]);
      assert rest[|rest| - 1] == p[|p| - 1];
    }
  }

  lemma AdvancingFlows(log: Log, x: Stream, returned: set<nat>)
    requires Orderly(log) && Flowing(log, x, returned) && !x.reader.Exited? && x.consumer.Swapping?
    ensures Flowing(log, Consuming(log, x), returned) && Consuming(log, x).flushed >= x.flushed
  {
    var p := InFlight(x);
    assert p[0] == x.consumer.i && p[1..] == InFlight(Consuming(log, x));
    PlacedWithoutFirst(log, returned, p, x.next, x.received, Pushed(x), x.flushed);
  }

  lemma ConsumingFlows(log: Log, x: Stream, returned: set<nat>)
    requires Orderly(log) && Flowing(log, x, returned) && !x.reader.Exited?
    ensures Flowing(log, Consuming(log, x), returned) && Consuming(log, x).flushed >= x.flushed
  {
    if x.consumer.Swapping? {
      AdvancingFlows(log, x, returned);
    } else {
      assert x.consumer.Returned? ==> InFlight(x)[0] == x.consumer.i;
      assert InFlight(Consuming(log, x)) == InFlight(x);
    }
  }

  lemma TakingFlows(log: Log, x: Stream, returned: set<nat>)
    requires Flowing(log, x, returned) && x.consumer.Waiting? && x.channel != []
    ensures Flowing(log, x.(consumer := Yielding(x.channel[0]), channel := x.channel[1..]), returned)
  {
    var y := x.(consumer := Yielding(x.channel[0]), channel := x.channel[1..]);
    assert InFlight(y) == InFlight(x);
  }

  lemma YieldingFlows(log: Log, x: Stream, returned: set<nat>, more: bool)
    requires Flowing(log, x, returned) && x.consumer.Yielding?
    ensures Flowing(log, x.(consumer := Refused(x.consumer.i)), returned)
    ensures Flowing(log, x.(consumer := Returned(x.consumer.i)), returned + {x.consumer.i})
  {
    assert InFlight(x.(consumer := Refused(x.consumer.i))) == InFlight(x);
    assert InFlight(x.(consumer := Returned(x.consumer.i))) == InFlight(x);
  }

  lemma StoppingFlows(log: Log, x: Stream, returned: set<nat>)
    requires Flowing(log, x, returned) && (x.reader.Idle? || x.reader.Emitting?)
    ensures Flowing(log, x.(reader := Ending(Abandoned(x.reader))), returned)
  {
    assert InFlight(x.(reader := Ending(Abandoned(x.reader)))) == InFlight(x);
  }

  /** Whatever is confirmed was returned, and never past what was received. */
  lemma ConfirmingIsSafe(log: Log, x: Stream, returned: set<nat>)
    requires Orderly(log) && Flowing(log, x, returned) && AcksOk(log, x, returned)
    ensures AcksOk(log, Confirming(x), returned) && Confirming(x).acks == x.acks + [x.flushed]
  {
    FlushedIsReturned(log, x, returned);
    FlushedIsBehind(log, returned, InFlight(x), x.next, x.received, Pushed(x), x.flushed);
  }

  lemma KeepaliveFlows(log: Log, x: Stream, returned: set<nat>, h: nat)
    requires Orderly(log) && Flowing(log, x, returned) && x.reader.Idle? && Ahead(log, x.next, h)
    ensures Flowing(log, x.(received := Max(x.received, h), reader := CheckLength(h)), returned)
  {
    AheadIsBeyond(log, x.next, h);
    assert InFlight(x.(received := Max(x.received, h), reader := CheckLength(h))) == InFlight(x);
  }

  lemma ConfirmingFlows(log: Log, x: Stream, returned: set<nat>, acks: seq<nat>)
    requires Flowing(log, x, returned)
    ensures Flowing(log, x.(acks := acks), returned)
  {
    assert InFlight(x.(acks := acks)) == InFlight(x);
  }

  lemma ReaderStepKeepsInv(log: Log, capacity: nat, s: State)
    requires Orderly(log) && Inv(log, s)
    ensures Inv(log, Step(log, capacity, s, ReaderStep))
  {
    var x := s.stream;
    if !x.reader.Exited? {
      ReadingFlows(log, capacity, x, s.returned);
    }
  }

  lemma StatusKeepsInv(log: Log, capacity: nat, s: State, e: Event)
    requires Orderly(log) && Inv(log, s) && (e.Status? || e.FinalStatus?)
    ensures Inv(log, Step(log, capacity, s, e))
  {
    var x := s.stream;
    if !x.reader.Exited? {
      ConfirmingIsSafe(log, x, s.returned);
      ConfirmingFlows(log, x, s.returned, Confirming(x).acks);
    }
  }

  lemma ReaderKeepsInv(log: Log, capacity: nat, s: State, e: Event)
    requires Orderly(log) && Inv(log, s) && (e.XLogData? || e.Keepalive? || e.Stop?)
    ensures Inv(log, Step(log, capacity, s, e))
  {
    var x := s.stream;
    if x.reader.Idle? && x.next < |log| {
      ReceivingFlows(log, x, s.returned);
    }
    if e.Keepalive? && x.reader.Idle? && Ahead(log, x.next, e.h) {
      KeepaliveFlows(log, x, s.returned, e.h);
    }
    if x.reader.Idle? || x.reader.Emitting? {
      StoppingFlows(log, x, s.returned);
    }
  }

  lemma ConsumerKeepsInv(log: Log, capacity: nat, s: State, e: Event)
    requires Orderly(log) && Inv(log, s) && (e.Take? || e.Yield? || e.ConsumerStep?)
    ensures Inv(log, Step(log, capacity, s, e))
  {
    var x := s.stream;
    if !x.reader.Exited? {
      ConsumingFlows(log, x, s.returned);
      if x.consumer.Waiting? && x.channel != [] {
        TakingFlows(log, x, s.returned);
      }
      if x.consumer.Yielding? {
        YieldingFlows(log, x, s.returned, true);
      }
    }
  }

  lemma StepKeepsInv(log: Log, capacity: nat, s: State, e: Event)
    requires Orderly(log) && Inv(log, s)
    ensures Inv(log, Step(log, capacity, s, e))
  {
    match e
    case Apply(_) =>
      if s.stream.acks != [] && !s.stream.reader.Exited? {
        ConfirmingFlows(log, s.stream, s.returned, s.stream.acks[1..]);
      }
    case Restart => SubscribedFlows(log, s.confirmed, s.returned);
    case Take => ConsumerKeepsInv(log, capacity, s, e);
    case Yield(_) => ConsumerKeepsInv(log, capacity, s, e);
    case ConsumerStep => ConsumerKeepsInv(log, capacity, s, e);
    case ReaderStep => ReaderStepKeepsInv(log, capacity, s);
    case Status => StatusKeepsInv(log, capacity, s, e);
    case FinalStatus(_) => StatusKeepsInv(log, capacity, s, e);
    case _ => ReaderKeepsInv(log, capacity, s, e);
  }

  lemma {:induction false} RunKeepsInv(log: Log, capacity: nat, s: State, events: seq<Event>)
    requires Orderly(log) && Inv(log, s)
    ensures Inv(log, Run(log, capacity, s, events))
    decreases |events|
  {
    if events != [] {
      StepKeepsInv(log, capacity, s, events[0]);
      RunKeepsInv(log, capacity, Step(log, capacity, s, events[0]), events[1..]);
    }
  }

  lemma InitInv(log: Log)
    requires Orderly(log)
    ensures Inv(log, Init(log))
  {
    SubscribedFlows(log, 0, {});
  }
}
