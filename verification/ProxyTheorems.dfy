/** What the proxy promises over whole runs. */
module ProxyTheorems {
  import opened Bytes
  import opened Options
  import opened Statements
  import opened Wire
  import opened Reconcile
  import opened Server
  import opened Proxy

  lemma InitInv(limit: int)
    ensures Inv(Init(limit))
  {
  }

  /** Whatever the other clients parsed, closed or had evicted: the next message a server
      reads is never a Parse refused for a name that is taken, and a Bind or Describe from
      a client that fits its limit finds the very Parse that client's own server would
      have under that name. */
  lemma ClientsCannotTell(limit: int, events: seq<Event>, b: nat)
    requires var s := Run(Init(limit), events); b < |s.backends| && s.backends[b].wire != []
    ensures var t, w := Run(Init(limit), events).backends[b].table, Run(Init(limit), events).backends[b].wire[0];
      && Meets(t, w)
      && (forall n :: Prepares(w.message, n) ==> n !in t)
      && (w.wants.Some? ==> exists n :: Uses(w.message, n) && n in t && t[n] == w.wants.value)
  {
    InitInv(limit);
    RunKeepsInv(Init(limit), events);
    assert BackendOk(Run(Init(limit), events), b);
    var t, w := Run(Init(limit), events).backends[b].table, Run(Init(limit), events).backends[b].wire[0];
    ExecutedExactly(t, w.message);
    if w.wants.Some? {
      NamedExactly(w.message, Named(w.message).value);
    }
  }

  /** Every Bind or Describe of a live statement that a faithful client sends is on the
      wire with that expectation, whichever backend it lands on. */
  lemma ExpectationsAreRecorded(limit: int, events: seq<Event>, k: nat, m: Message, name: Name, pick: nat)
    requires var s := Run(Init(limit), events);
      && k < |s.clients| && !s.clients[k].ended && s.clients[k].faithful
      && |m| >= HEADER_SIZE && Uses(m, name) && name in s.clients[k].private
      && Target(s, k, pick).Some?
    ensures var s := Run(Init(limit), events); var t := Next(s, Send(k, m, pick));
      var at := Target(s, k, pick).value;
      && at < |t.backends| && t.clients[k].attached == Some(at) && t.backends[at].wire != []
      && t.backends[at].wire[|t.backends[at].wire| - 1] == Sent(m, Some(s.clients[k].private[name]), false)
  {
    InitInv(limit);
    RunKeepsInv(Init(limit), events);
    NamedExactly(m, name);
    var s := Run(Init(limit), events);
    assert ClientOk(s, k);
  }

  /** The proxy's idea of what a backend has prepared is what its server will have once it
      has read everything sent, and never more than a positive limit. */
  lemma MirrorIsExact(limit: int, events: seq<Event>, b: nat)
    requires b < |Run(Init(limit), events).backends|
    ensures var x := Run(Init(limit), events).backends[b];
      && AsMap(x.prepared) == Eventually(x.table, x.wire)
      && (limit > 0 ==> |Eventually(x.table, x.wire)| <= limit)
  {
    InitInv(limit);
    RunKeepsInv(Init(limit), events);
    assert BackendOk(Run(Init(limit), events), b);
    AsMapSize(Run(Init(limit), events).backends[b].prepared);
  }

  /** No backend ever serves two clients, and one a client is attached to is not broken. */
  lemma NoBackendIsShared(limit: int, events: seq<Event>, j: nat, k: nat)
    requires var s := Run(Init(limit), events); j < k < |s.clients| && s.clients[k].attached.Some?
    ensures var s := Run(Init(limit), events);
      && s.clients[j].attached != s.clients[k].attached
      && s.clients[k].attached.value < |s.backends| && !s.backends[s.clients[k].attached.value].broken
  {
    InitInv(limit);
    RunKeepsInv(Init(limit), events);
    var s := Run(Init(limit), events);
    assert ClientOk(s, j) && ClientOk(s, k);
  }

  /** A backend leaves a client at a reply only at an idle ReadyForQuery with every
      counted message answered, and with nothing in flight if the client's last message
      ended its batch; and while that was so at every handover, with no completion owed
      that the next backend's replies could be taken for. */
  lemma {:induction false} HandoverIsClean(limit: int, events: seq<Event>, k: nat)
    requires var s := Run(Init(limit), events); k < |s.clients| && s.clients[k].attached.Some?
    requires Next(Run(Init(limit), events), Deliver(k)).clients[k].attached.None?
    ensures var s := Run(Init(limit), events); var at := s.clients[k].attached.value;
      && at < |s.backends| && s.backends[at].out != []
      && s.backends[at].out[0].Ready? && NoTransaction(s.backends[at].out[0].status)
      && Counted(Next(s, Deliver(k)).backends[at].wire) + Readies(Next(s, Deliver(k)).backends[at].out) == 0
      && (s.clients[k].closedBatch ==>
        Next(s, Deliver(k)).backends[at].wire == [] && Next(s, Deliver(k)).backends[at].out == [])
      && (Next(s, Deliver(k)).clients[k].tidy ==> Next(s, Deliver(k)).clients[k].owed == [])
  {
    InitInv(limit);
    RunKeepsInv(Init(limit), events);
    var s := Run(Init(limit), events);
    assert ClientOk(s, k);
    var at := s.clients[k].attached.value;
    DeliveringAccounts(s.clients[k], s.backends[at]);
  }

  /** A connection abandoned in the middle of a client's work is never attached again. */
  lemma {:induction false} BrokenStaysOut(s: Proxy, events: seq<Event>, b: nat)
    requires Inv(s) && b < |s.backends| && s.backends[b].broken
    ensures var t := Run(s, events); b < |t.backends| && t.backends[b].broken && t.backends[b].holder.None?
    decreases |events|
  {
    assert BackendOk(s, b);
    if events != [] {
      NextKeepsInv(s, events[0]);
      BrokenIsNotPicked(s, events[0], b);
      BrokenStaysOut(Next(s, events[0]), events[1..], b);
    }
  }

  lemma BrokenIsNotPicked(s: Proxy, e: Event, b: nat)
    requires Inv(s) && b < |s.backends| && s.backends[b].broken && s.backends[b].holder.None?
    ensures var t := Next(s, e); b < |t.backends| && t.backends[b].broken
  {
    if e.Send? && e.k < |s.clients| {
      assert ClientOk(s, e.k);
    }
    if e.Deliver? && e.k < |s.clients| {
      assert ClientOk(s, e.k);
    }
  }

  /** What a Bind or Describe runs against is what the client means exactly when its
      session still remembers the statement, or the backend happens to hold the same
      bytes: a statement the session's set has dropped is whatever is there. */
  lemma {:induction false} BindIsRightExactly(limit: int, own: Lru, prepared: Lru, message: Message, meant: Message)
    requires Genuine(own) && Genuine(prepared) && |message| >= HEADER_SIZE
    requires Kind(message) == MSG_BIND || Kind(message) == MSG_DESCRIBE
    requires Named(message).Some? && (Has(own, Named(message).value) ==> Find(own, Named(message).value) == Some(meant))
    ensures var t := After(AsMap(prepared), Reconciled(limit, Plan(own, prepared, [], []), message).injected);
      var name := Named(message).value;
      (name in t && t[name] == meant) <==> (Has(own, name) || Find(prepared, name) == Some(meant))
  {
    var name := Named(message).value;
    if Has(own, name) {
      BindFindsItsParse(limit, own, prepared, message);
    } else {
      AsMapIs(prepared, name);
    }
  }

  const SYNC_MESSAGE: Message := [MSG_SYNC, 0, 0, 0, 4]
  const FLUSH_MESSAGE: Message := [MSG_FLUSH, 0, 0, 0, 4]

  /** One client on one backend, having written wire and read nothing of out. */
  function Alone(limit: int, pending: nat, closed: bool, tidy: bool,
                 attached: Option<nat>, wire: seq<Sent>, out: seq<Reply>): Proxy {
    Proxy(limit,
          [Client([], map[], Fits(limit, map[]), [], pending, attached, closed, tidy, false)],
          [Backend([], map[], wire, out, false, if attached.Some? then Some(0) else None)])
  }

  lemma NothingToInject(limit: int, m: Message)
    requires m == SYNC_MESSAGE || m == FLUSH_MESSAGE
    ensures Reconciled(limit, Plan([], [], [], []), m) == Plan([], [], [], [])
      && Privately(map[], m) == map[] && Accepted(map[], m)
    ensures |m| >= HEADER_SIZE && (EndsTransactionUnit(Kind(m)) <==> m == SYNC_MESSAGE)
  {
  }

  lemma SendAlone(limit: int, pending: nat, wire: seq<Sent>, m: Message, first: bool)
    requires m == SYNC_MESSAGE || m == FLUSH_MESSAGE
    requires first ==> pending == 0 && wire == []
    ensures var s := Alone(limit, pending, true, true, if first then None else Some(0), wire, []);
      Next(s, Send(0, m, 0)) == Alone(limit, pending + (if m == SYNC_MESSAGE then 1 else 0), m == SYNC_MESSAGE, true,
                                      Some(0), wire + [Sent(m, None, false)], [])
  {
    var s := Alone(limit, pending, true, true, if first then None else Some(0), wire, []);
    var t := Alone(limit, pending + (if m == SYNC_MESSAGE then 1 else 0), m == SYNC_MESSAGE, true,
                   Some(0), wire + [Sent(m, None, false)], []);
    NothingToInject(limit, m);
    assert Target(s, 0, 0) == Some(0);
    assert Wants(s.clients[0], m) == None && Injections([]) == [] && wire + [] == wire;
    var no: seq<byte> := [];
    assert no + no == no;
    assert Sending(limit, s.clients[0], s.backends[0], 0, 0, m) == (t.clients[0], t.backends[0]);
  }

  lemma AnswerAlone(limit: int, m: Message)
    requires m == SYNC_MESSAGE
    ensures var ready := [Ready(TX_IDLE)]; var flush := [Sent(FLUSH_MESSAGE, None, false)];
      && Next(Alone(limit, 1, false, true, Some(0), [Sent(m, None, false)] + flush, []), Serve(0, ready)) ==
        Alone(limit, 1, false, true, Some(0), flush, ready)
      && Next(Alone(limit, 1, false, true, Some(0), flush, ready), Deliver(0)) ==
        Alone(limit, 0, false, false, None, flush, [])
  {
    var ready, flush := [Ready(TX_IDLE)], [Sent(FLUSH_MESSAGE, None, false)];
    assert ready[1..] == [] && [] + ready == ready;
    assert Readies(ready) == 1;
    assert ([Sent(m, None, false)] + flush)[1..] == flush;
    assert ([Sent(m, None, false)] + flush)[0] == Sent(m, None, false);
    assert EndsTransactionUnit(Kind(m));
    assert Executed(map[], m) == map[];
  }

  lemma RunFour(s: Proxy, a: Event, b: Event, c: Event, d: Event)
    ensures Run(s, [a, b, c, d]) == Next(Next(Next(Next(s, a), b), c), d)
  {
    assert [a, b, c, d][1..] == [b, c, d] && [b, c, d][1..] == [c, d] && [c, d][1..] == [d] && [d][1..] == [];
    var t := Next(Next(s, a), b);
    assert Run(s, [a, b, c, d]) == Run(Next(s, a), [b, c, d]) == Run(t, [c, d]) == Run(Next(t, c), [d]);
  }

  const LEAVING: seq<Event> := [Send(0, SYNC_MESSAGE, 0), Send(0, FLUSH_MESSAGE, 0),
    Serve(0, [Ready(TX_IDLE)]), Deliver(0)]

  /** The handover is not clean without that condition: a client that starts its next
      batch before its Sync is answered leaves the batch behind on a backend that is back
      in the pool. */
  lemma OpenBatchIsLeftBehind(limit: int)
    ensures Next(Next(Init(limit), Connect), Dial) == Alone(limit, 0, true, true, None, [], [])
    ensures Run(Alone(limit, 0, true, true, None, [], []), LEAVING) ==
      Alone(limit, 0, false, false, None, [Sent(FLUSH_MESSAGE, None, false)], [])
  {
    SendAlone(limit, 0, [], SYNC_MESSAGE, true);
    SendAlone(limit, 1, [Sent(SYNC_MESSAGE, None, false)], FLUSH_MESSAGE, false);
    AnswerAlone(limit, SYNC_MESSAGE);
    RunFour(Alone(limit, 0, true, true, None, [], []), LEAVING[0], LEAVING[1], LEAVING[2], LEAVING[3]);
    assert [] + [Sent(SYNC_MESSAGE, None, false)] == [Sent(SYNC_MESSAGE, None, false)];
  }
}
