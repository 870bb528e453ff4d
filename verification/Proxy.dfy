/** Any number of sessions sharing any number of pooled backends, in any interleaving.
    Each backend's server reads what was written to it in order. */
module Proxy {
  import opened Bytes
  import opened Completions
  import opened Options
  import opened Statements
  import opened Wire
  import opened Reconcile
  import opened Sequences
  import opened Server
  import opened Session

  /** A message on its way to a server. wants is what the statement a client's Bind or
      Describe names would be if the client had the server to itself. */
  datatype Sent = Sent(message: Message, wants: Option<Message>, injected: bool)

  /** A ReadyForQuery with the status it reports, or any other reply. */
  datatype Reply = Ready(status: byte) | Other(kind: byte)

  datatype Backend = Backend(
    prepared: Lru,            // what the proxy believes is prepared
    table: Table,             // what the server has prepared
    wire: seq<Sent>,          // written, not yet read by the server
    out: seq<Reply>,          // answered, not yet read by the relay
    broken: bool,
    holder: Option<nat>)

  datatype Client = Client(
    own: Lru,                 // session.statements
    private: Table,           // what a server of its own would have prepared
    faithful: bool,           // so far it fits its limit and never re-parsed a live name
    owed: seq<byte>,          // session.expect
    pending: nat,
    attached: Option<nat>,
    closedBatch: bool,        // the last message it sent ends a transaction unit
    tidy: bool,               // no backend has left it with a batch open
    ended: bool)

  datatype Proxy = Proxy(limit: int, clients: seq<Client>, backends: seq<Backend>)

  datatype Event =
    | Connect
    | Dial
    | Send(k: nat, message: Message, pick: nat)
    | Serve(b: nat, replies: seq<Reply>)
    | Deliver(k: nat)
    | Leave(k: nat)

  // ---- steps ------------------------------------------------------------------------

  function Fits(limit: int, t: Table): bool { limit <= 0 || |t| <= limit }

  /** The private server refuses a Parse over a name it has. */
  function Privately(t: Table, m: Message): Table {
    if Accepted(t, m) then Executed(t, m) else t
  }

  function Wants(c: Client, m: Message): Option<Message>
    requires |m| >= HEADER_SIZE
  {
    if c.faithful && (Kind(m) == MSG_BIND || Kind(m) == MSG_DESCRIBE) && Named(m).Some? && Named(m).value in c.private
    then Some(c.private[Named(m).value]) else None
  }

  function Injections(ms: seq<Message>): seq<Sent> {
    if ms == [] then [] else [Sent(ms[0], None, true)] + Injections(ms[1..])
  }

  /** ensureBackend: the attached backend, or a free one that Acquire may return. */
  function Target(s: Proxy, k: nat, pick: nat): Option<nat>
    requires k < |s.clients|
  {
    if s.clients[k].attached.Some? then s.clients[k].attached
    else if pick < |s.backends| && s.backends[pick].holder.None? && !s.backends[pick].broken then Some(pick)
    else None
  }

  function Sending(limit: int, c: Client, b: Backend, at: nat, k: nat, m: Message): (Client, Backend)
    requires |m| >= HEADER_SIZE
  {
    var p := Reconciled(limit, Plan(c.own, b.prepared, [], []), m);
    var private := Privately(c.private, m);
    (c.(own := p.own, owed := c.owed + p.owed, attached := Some(at), private := private,
        faithful := c.faithful && Accepted(c.private, m) && Fits(limit, private),
        pending := c.pending + (if EndsTransactionUnit(Kind(m)) then 1 else 0),
        closedBatch := EndsTransactionUnit(Kind(m))),
     b.(prepared := p.prepared, holder := Some(k),
        wire := b.wire + Injections(p.injected) + [Sent(m, Wants(c, m), false)]))
  }

  /** An injected Parse or Close is answered with its completion. A client's message is
      answered with one ReadyForQuery, last, if it ends a unit, and with none otherwise. */
  predicate Answers(w: Sent, replies: seq<Reply>) {
    if w.injected && IsCompleted(w.message) then replies == [Other(Completion(w.message))]
    else if EndsUnit(w.message)
    then replies != [] && replies[|replies| - 1].Ready? && Readies(replies) == 1
    else Readies(replies) == 0
  }

  predicate IsCompleted(m: Message) { |m| >= BODY && (m[0] == 80 || m[0] == 67) }

  predicate EndsUnit(m: Message) { |m| >= BODY && AnsweredByReady(m[0]) }

  function Readies(replies: seq<Reply>): nat {
    if replies == [] then 0 else (if replies[0].Ready? then 1 else 0) + Readies(replies[1..])
  }

  function Counted(wire: seq<Sent>): nat {
    if wire == [] then 0
    else (if EndsUnit(wire[0].message) then 1 else 0) + Counted(wire[1..])
  }

  function Serving(b: Backend, replies: seq<Reply>): Backend
    requires b.wire != []
  {
    b.(table := Executed(b.table, b.wire[0].message), wire := b.wire[1..], out := b.out + replies)
  }

  function Delivering(c: Client, b: Backend): (Client, Backend)
    requires b.out != []
  {
    var r, rest := b.out[0], b.(out := b.out[1..]);
    var (mine, owed) := Swallowed(c.owed, KindOf(r));
    if mine || r.Other? then (c.(owed := owed), rest)
    else
      var (released, left) := Completed(c.pending, r.status);
      if released then (c.(pending := left, attached := None, tidy := c.tidy && c.closedBatch), rest.(holder := None))
      else (c.(pending := left), rest)
  }

  function Next(s: Proxy, e: Event): Proxy {
    match e
    case Connect => s.(clients := s.clients + [Client([], map[], true, [], 0, None, true, true, false)])
    case Dial => s.(backends := s.backends + [Backend([], map[], [], [], false, None)])
    case Send(k, m, pick) =>
      if k >= |s.clients| || s.clients[k].ended || |m| < HEADER_SIZE || Target(s, k, pick).None? then s
      else
        var at := Target(s, k, pick).value;
        if at >= |s.backends| then s
        else
          var (c, b) := Sending(s.limit, s.clients[k], s.backends[at], at, k, m);
          s.(clients := s.clients[k := c], backends := s.backends[at := b])
    case Serve(b, replies) =>
      if b >= |s.backends| || s.backends[b].wire == [] || !Answers(s.backends[b].wire[0], replies) then s
      else s.(backends := s.backends[b := Serving(s.backends[b], replies)])
    case Deliver(k) =>
      if k >= |s.clients| || s.clients[k].attached.None? then s
      else
        var at := s.clients[k].attached.value;
        if at >= |s.backends| || s.backends[at].out == [] then s
        else
          var (c, b) := Delivering(s.clients[k], s.backends[at]);
          s.(clients := s.clients[k := c], backends := s.backends[at := b])
    case Leave(k) =>
      if k >= |s.clients| then s
      else
        var c := s.clients[k];
        var gone := c.(ended := true, attached := None, pending := 0);
        if c.attached.None? || c.attached.value >= |s.backends| then s.(clients := s.clients[k := gone])
        else
          var at := c.attached.value;
          s.(clients := s.clients[k := gone],
             backends := s.backends[at := s.backends[at].(broken := true, holder := None)])
  }

  function Run(s: Proxy, events: seq<Event>): Proxy
    decreases |events|
  {
    if events == [] then s else Run(Next(s, events[0]), events[1..])
  }

  function Init(limit: int): Proxy { Proxy(limit, [], []) }

  // ---- one backend ------------------------------------------------------------------

  /** Read in order from table t, nothing on the wire is refused for a name that is taken,
      and every statement a client means is the one it finds. */
  ghost predicate Sound(t: Table, wire: seq<Sent>)
    decreases |wire|
  {
    wire == [] || (Meets(t, wire[0]) && Sound(Executed(t, wire[0].message), wire[1..]))
  }

  ghost predicate Meets(t: Table, w: Sent) {
    && Accepted(t, w.message)
    && (w.wants.Some? ==>
         && |w.message| >= HEADER_SIZE && (Kind(w.message) == MSG_BIND || Kind(w.message) == MSG_DESCRIBE)
         && Named(w.message).Some? && Named(w.message).value in t
         && t[Named(w.message).value] == w.wants.value)
  }

  /** The server's table once it has read everything written. */
  function Eventually(t: Table, wire: seq<Sent>): Table
    decreases |wire|
  {
    if wire == [] then t else Eventually(Executed(t, wire[0].message), wire[1..])
  }

  lemma {:induction false} WireConcat(t: Table, a: seq<Sent>, b: seq<Sent>)
    ensures Eventually(t, a + b) == Eventually(Eventually(t, a), b)
    ensures Sound(t, a + b) <==> Sound(t, a) && Sound(Eventually(t, a), b)
    decreases |a|
  {
    if a == [] {
      assert a + b == b;
    } else {
      assert (a + b)[1..] == a[1..] + b;
      WireConcat(Executed(t, a[0].message), a[1..], b);
    }
  }

  lemma {:induction false} InjectionsRun(t: Table, ms: seq<Message>)
    requires AllAccepted(t, ms)
    ensures Sound(t, Injections(ms)) && Eventually(t, Injections(ms)) == After(t, ms)
    decreases |ms|
  {
    if ms != [] {
      assert Injections(ms)[1..] == Injections(ms[1..]);
      InjectionsRun(Executed(t, ms[0]), ms[1..]);
    }
  }

  lemma {:induction false} CountedConcat(a: seq<Sent>, b: seq<Sent>)
    ensures Counted(a + b) == Counted(a) + Counted(b)
  {
    if a == [] {
      assert a + b == b;
    } else {
      assert (a + b)[1..] == a[1..] + b;
      CountedConcat(a[1..], b);
    }
  }

  lemma {:induction false} ReadiesConcat(a: seq<Reply>, b: seq<Reply>)
    ensures Readies(a + b) == Readies(a) + Readies(b)
  {
    if a == [] {
      assert a + b == b;
    } else {
      assert (a + b)[1..] == a[1..] + b;
      ReadiesConcat(a[1..], b);
    }
  }

  function Written(wire: seq<Sent>): seq<Message> {
    seq(|wire|, i requires 0 <= i < |wire| => wire[i].message)
  }

  lemma {:induction false} InjectionsWritten(ms: seq<Message>)
    ensures Written(Injections(ms)) == ms
  {
    if ms != [] {
      var rest := Injections(ms[1..]);
      InjectionsWritten(ms[1..]);
      assert Injections(ms) == [Sent(ms[0], None, true)] + rest;
      assert Written(Injections(ms)) == [ms[0]] + Written(rest);
    }
  }

  lemma SendingWrites(limit: int, c: Client, b: Backend, at: nat, k: nat, m: Message)
    requires |m| >= HEADER_SIZE
    ensures var p := Reconciled(limit, Plan(c.own, b.prepared, [], []), m);
      var wire := Sending(limit, c, b, at, k, m).1.wire;
      b.wire <= wire && Written(wire[|b.wire|..]) == p.injected + [m]
  {
    var ms := Reconciled(limit, Plan(c.own, b.prepared, [], []), m).injected;
    var last := Sent(m, Wants(c, m), false);
    var wire := Sending(limit, c, b, at, k, m).1.wire;
    assert wire == b.wire + (Injections(ms) + [last]);
    assert wire[|b.wire|..] == Injections(ms) + [last];
    InjectionsWritten(ms);
    assert Written(Injections(ms) + [last]) == Written(Injections(ms)) + [m];
  }

  /** What Session.Forward promises of a session and its backend, whatever was written to
      that backend before, is what a client and a backend are after Sending. */
  lemma ForwardIsSending(limit: int, c: Client, b: Backend, at: nat, k: nat, m: Message, sent: seq<Message>)
    requires |m| >= HEADER_SIZE
    ensures var p := Reconciled(limit, Plan(c.own, b.prepared, sent, c.owed), m);
      var (c', b') := Sending(limit, c, b, at, k, m);
      && b.wire <= b'.wire
      && p.(injected := p.injected + [m]) == Plan(c'.own, b'.prepared, sent + Written(b'.wire[|b.wire|..]), c'.owed)
      && c'.pending == c.pending + (if EndsTransactionUnit(Kind(m)) then 1 else 0)
  {
    PlanBehind(limit, c.own, b.prepared, sent, c.owed, m);
    SendingWrites(limit, c, b, at, k, m);
  }

  /** What is injected is Parses and Closes, which end no unit. */
  ghost predicate Uncounted(ms: seq<Message>) {
    forall i :: 0 <= i < |ms| ==> IsCompleted(ms[i])
  }

  lemma {:induction false} InjectionsUncounted(ms: seq<Message>)
    requires Uncounted(ms)
    ensures Counted(Injections(ms)) == 0
  {
    if ms != [] {
      assert Injections(ms)[1..] == Injections(ms[1..]);
      InjectionsUncounted(ms[1..]);
    }
  }

  lemma ReconciledUncounted(limit: int, own: Lru, prepared: Lru, m: Message)
    requires Genuine(own) && |m| >= HEADER_SIZE
    ensures Uncounted(Reconciled(limit, Plan(own, prepared, [], []), m).injected)
  {
    if Named(m).Some? && Has(own, Named(m).value) {
      FoundIsGenuine(own, Named(m).value);
    }
  }

  /** Every statement set is what it says, mirrors the server and fits its limit. */
  ghost predicate Mirrored(limit: int, b: Backend) {
    && Genuine(b.prepared)
    && Sound(b.table, b.wire)
    && AsMap(b.prepared) == Eventually(b.table, b.wire)
    && (limit > 0 ==> |b.prepared| <= limit)
  }

  /** While it is faithful, a client remembers exactly what its own server would hold. */
  ghost predicate Remembers(limit: int, c: Client) {
    Genuine(c.own) && (c.faithful ==> AsMap(c.own) == c.private && Fits(limit, c.private))
  }

  lemma OneOnTheWire(t: Table, w: Sent)
    ensures Sound(t, [w]) <==> Meets(t, w)
    ensures Eventually(t, [w]) == Executed(t, w.message)
  {
    assert [w][1..] == [];
  }

  /** By the time the server reads a client's message, what was injected in front of it
      has made room for a Parse and put the right one in place for a Bind. */
  lemma MessageIsMet(limit: int, c: Client, prepared: Lru, m: Message)
    requires |m| >= HEADER_SIZE && Genuine(prepared) && Remembers(limit, c)
    ensures var p := Reconciled(limit, Plan(c.own, prepared, [], []), m);
      AllAccepted(AsMap(prepared), p.injected) && Meets(After(AsMap(prepared), p.injected), Sent(m, Wants(c, m), false))
  {
    var p := Reconciled(limit, Plan(c.own, prepared, [], []), m);
    ReconciledMirrors(limit, c.own, prepared, m);
    AfterAppend(AsMap(prepared), p.injected, m);
    if Wants(c, m).Some? {
      AsMapIs(c.own, Named(m).value);
      BindFindsItsParse(limit, c.own, prepared, m);
    }
  }

  /** A message sent keeps the backend mirrored: what it injects and the message itself
      are accepted, and a Bind finds the Parse its client means. */
  lemma SendingMirrors(limit: int, c: Client, b: Backend, at: nat, k: nat, m: Message)
    requires |m| >= HEADER_SIZE && Mirrored(limit, b) && Remembers(limit, c)
    ensures Mirrored(limit, Sending(limit, c, b, at, k, m).1)
  {
    var p := Reconciled(limit, Plan(c.own, b.prepared, [], []), m);
    var t, w := AsMap(b.prepared), Sent(m, Wants(c, m), false);
    ReconciledMirrors(limit, c.own, b.prepared, m);
    MessageIsMet(limit, c, b.prepared, m);
    AfterAppend(t, p.injected, m);
    InjectionsRun(t, p.injected);
    WireConcat(b.table, b.wire, Injections(p.injected));
    OneOnTheWire(After(t, p.injected), w);
    WireConcat(b.table, b.wire + Injections(p.injected), [w]);
  }

  /** ... and keeps what its client remembers equal to its own server's table. */
  lemma SendingRemembers(limit: int, c: Client, b: Backend, at: nat, k: nat, m: Message)
    requires |m| >= HEADER_SIZE && Genuine(b.prepared) && Remembers(limit, c)
    ensures Remembers(limit, Sending(limit, c, b, at, k, m).0)
  {
    var name := Named(m);
    ReconciledMirrors(limit, c.own, b.prepared, m);
    if name.Some? && NamesStatement(Kind(m)) {
      NamedIsSendable(m);
      if Kind(m) == MSG_PARSE {
        ParsedSets(limit, c.own, b.prepared, name.value, m);
        RememberedAsMap(c.own, limit, name.value, m);
        AsMapIs(c.own, name.value);
        AsMapSize(c.own);
        if c.faithful && Accepted(c.private, m) {
          assert name.value !in c.private;
          assert |c.private[name.value := m]| == |c.private| + 1;
        }
      } else if Kind(m) == MSG_CLOSE {
        DroppedAsMap(c.own, name.value);
      } else {
        EnsuredSets(limit, c.own, b.prepared, name.value);
      }
    }
  }

  // ---- handing backends over --------------------------------------------------------

  /** The last thing the server has still to answer, or has answered last, ends a unit. */
  ghost predicate EndsClosed(b: Backend) {
    if b.wire != [] then EndsUnit(b.wire[|b.wire| - 1].message)
    else b.out == [] || b.out[|b.out| - 1].Ready?
  }

  predicate OwesCompletions(owed: seq<byte>) {
    forall i :: 0 <= i < |owed| ==> owed[i] == PARSE_COMPLETE || owed[i] == CLOSE_COMPLETE
  }

  function KindOf(r: Reply): byte { if r.Ready? then READY else r.kind }

  function ReplyKinds(out: seq<Reply>): seq<byte> {
    if out == [] then [] else [KindOf(out[0])] + ReplyKinds(out[1..])
  }

  /** The completions that what was injected will still be answered with. */
  function Completing(wire: seq<Sent>): seq<byte> {
    if wire == [] then []
    else
      (if wire[0].injected && IsCompleted(wire[0].message) then [Completion(wire[0].message)] else [])
      + Completing(wire[1..])
  }

  lemma {:induction false} ReplyKindsConcat(a: seq<Reply>, b: seq<Reply>)
    ensures ReplyKinds(a + b) == ReplyKinds(a) + ReplyKinds(b)
  {
    if a == [] {
      assert a + b == b;
    } else {
      assert (a + b)[0] == a[0] && (a + b)[1..] == a[1..] + b;
      ReplyKindsConcat(a[1..], b);
    }
  }

  lemma {:induction false} CompletingConcat(a: seq<Sent>, b: seq<Sent>)
    ensures Completing(a + b) == Completing(a) + Completing(b)
  {
    if a == [] {
      assert a + b == b;
    } else {
      var first := if a[0].injected && IsCompleted(a[0].message) then [Completion(a[0].message)] else [];
      var all := a + b;
      assert all[0] == a[0] && all[1..] == a[1..] + b;
      CompletingConcat(a[1..], b);
      assert Completing(all) == first + Completing(all[1..]);
      Joined(first, Completing(a[1..]), Completing(b));
    }
  }

  lemma {:induction false} InjectionsComplete(ms: seq<Message>)
    requires Uncounted(ms) && Readable(ms)
    ensures Completing(Injections(ms)) == Answering(ms)
  {
    if ms != [] {
      assert Injections(ms)[1..] == Injections(ms[1..]);
      InjectionsComplete(ms[1..]);
    }
  }

  /** What a session owes can be read off what its backend has still to answer or has
      answered: nothing else of its kind will be swallowed instead of it for ever. */
  ghost predicate Settles(owed: seq<byte>, b: Backend) {
    Matched(owed, ReplyKinds(b.out) + Completing(b.wire))
  }

  /** pending is the counted messages still to be answered and the ReadyForQuery still to
      be read. */
  ghost predicate Accounted(c: Client, b: Backend) {
    && c.pending == Counted(b.wire) + Readies(b.out)
    && (c.closedBatch ==> EndsClosed(b))
    && (c.tidy ==> Settles(c.owed, b))
  }

  /** A backend in the pool has nothing counted outstanding; a broken one serves nobody. */
  ghost predicate Free(b: Backend) {
    if b.holder.Some? then !b.broken else b.broken || Counted(b.wire) + Readies(b.out) == 0
  }

  lemma {:induction false} AnswersAreCompletions(ms: seq<Message>)
    requires Readable(ms)
    ensures OwesCompletions(Answering(ms))
  {
    if ms != [] {
      AnswersAreCompletions(ms[1..]);
    }
  }

  lemma OwesOnlyCompletions(limit: int, own: Lru, prepared: Lru, m: Message)
    requires |m| >= HEADER_SIZE && Genuine(own)
    ensures OwesCompletions(Reconciled(limit, Plan(own, prepared, [], []), m).owed)
  {
    ReconciledOwes(limit, own, prepared, m);
    AnswersAreCompletions(Reconciled(limit, Plan(own, prepared, [], []), m).injected);
  }

  /** What a message puts on the wire will complete exactly what becomes owed for it. */
  lemma SendingCompletes(limit: int, c: Client, b: Backend, m: Message)
    requires |m| >= HEADER_SIZE && Genuine(c.own)
    ensures var p := Reconciled(limit, Plan(c.own, b.prepared, [], []), m);
      Completing(b.wire + Injections(p.injected) + [Sent(m, Wants(c, m), false)]) == Completing(b.wire) + p.owed
  {
    var p := Reconciled(limit, Plan(c.own, b.prepared, [], []), m);
    var w := Sent(m, Wants(c, m), false);
    ReconciledUncounted(limit, c.own, b.prepared, m);
    ReconciledOwes(limit, c.own, b.prepared, m);
    InjectionsComplete(p.injected);
    CompletingConcat(b.wire, Injections(p.injected));
    CompletingConcat(b.wire + Injections(p.injected), [w]);
    assert Completing([w]) == [] by {
      assert [w][1..] == [];
    }
  }

  lemma SendingSettles(limit: int, c: Client, b: Backend, at: nat, k: nat, m: Message)
    requires |m| >= HEADER_SIZE && Genuine(c.own) && Settles(c.owed, b)
    ensures var (c', b') := Sending(limit, c, b, at, k, m); Settles(c'.owed, b')
  {
    var owed := Reconciled(limit, Plan(c.own, b.prepared, [], []), m).owed;
    SendingCompletes(limit, c, b, m);
    MatchedItself(owed);
    MatchedConcat(c.owed, ReplyKinds(b.out) + Completing(b.wire), owed, owed);
    Joined(ReplyKinds(b.out), Completing(b.wire), owed);
  }

  lemma SendingAccounts(limit: int, c: Client, b: Backend, at: nat, k: nat, m: Message)
    requires |m| >= HEADER_SIZE && Genuine(c.own) && OwesCompletions(c.owed)
    requires c.pending == Counted(b.wire) + Readies(b.out) && (c.tidy ==> Settles(c.owed, b))
    ensures var (c', b') := Sending(limit, c, b, at, k, m); Accounted(c', b') && OwesCompletions(c'.owed)
  {
    var p := Reconciled(limit, Plan(c.own, b.prepared, [], []), m);
    var w := Sent(m, Wants(c, m), false);
    ReconciledUncounted(limit, c.own, b.prepared, m);
    OwesOnlyCompletions(limit, c.own, b.prepared, m);
    if c.tidy {
      SendingSettles(limit, c, b, at, k, m);
    }
    InjectionsUncounted(p.injected);
    CountedConcat(b.wire, Injections(p.injected));
    CountedConcat(b.wire + Injections(p.injected), [w]);
    assert [w][1..] == [];
  }

  lemma ServingKeepsCount(b: Backend, replies: seq<Reply>)
    requires b.wire != [] && Answers(b.wire[0], replies)
    ensures var b' := Serving(b, replies); Counted(b'.wire) + Readies(b'.out) == Counted(b.wire) + Readies(b.out)
    ensures EndsClosed(b) ==> EndsClosed(Serving(b, replies))
  {
    ReadiesConcat(b.out, replies);
  }

  /** The server's answers are what was owed, or come in between. */
  lemma ServingSettles(b: Backend, replies: seq<Reply>, owed: seq<byte>)
    requires b.wire != [] && Answers(b.wire[0], replies) && Settles(owed, b)
    ensures Settles(owed, Serving(b, replies))
  {
    ReplyKindsConcat(b.out, replies);
    var w, rest := b.wire[0], Completing(b.wire[1..]);
    if w.injected && IsCompleted(w.message) {
      assert replies[1..] == [] && ReplyKinds(replies) == [Completion(w.message)];
      Joined(ReplyKinds(b.out), [Completion(w.message)], rest);
    } else {
      assert Completing(b.wire) == [] + rest == rest;
      MatchedAround(owed, ReplyKinds(b.out), ReplyKinds(replies), rest);
    }
  }

  lemma MatchedNext(owed: seq<byte>, out: seq<Reply>, tail: seq<byte>)
    requires out != [] && Matched(owed, ReplyKinds(out) + tail)
    ensures Matched(Swallowed(owed, KindOf(out[0])).1, ReplyKinds(out[1..]) + tail)
  {
    var kinds := ReplyKinds(out) + tail;
    assert kinds[0] == KindOf(out[0]) && kinds[1..] == ReplyKinds(out[1..]) + tail;
  }

  lemma DeliveringReads(c: Client, b: Backend)
    requires b.out != []
    ensures var (c', b') := Delivering(c, b);
      c'.owed == Swallowed(c.owed, KindOf(b.out[0])).1 && b'.out == b.out[1..] && b'.wire == b.wire
  {
  }

  /** A reply read is one less to come, and what it completes is no longer owed. */
  lemma DeliveringSettles(c: Client, b: Backend)
    requires b.out != [] && Settles(c.owed, b)
    ensures Matched(Delivering(c, b).0.owed, ReplyKinds(Delivering(c, b).1.out) + Completing(Delivering(c, b).1.wire))
  {
    MatchedNext(c.owed, b.out, Completing(b.wire));
    DeliveringReads(c, b);
  }

  /** Reading one reply off a backend whose last message ends a unit leaves something
      counted behind unless it was the last reply of all. */
  lemma ReadingOne(b: Backend)
    requires b.out != []
    ensures var b' := b.(out := b.out[1..]);
      && Readies(b'.out) == Readies(b.out) - (if b.out[0].Ready? then 1 else 0)
      && (EndsClosed(b) ==> EndsClosed(b'))
      && (EndsClosed(b) && Counted(b'.wire) + Readies(b'.out) == 0 ==> b'.wire == [] && b'.out == [])
  {
    var rest := b.out[1..];
    if EndsClosed(b) {
      if b.wire != [] {
        LastUnitCounts(b.wire);
      } else if rest != [] {
        assert rest[|rest| - 1] == b.out[|b.out| - 1];
        LastReadyCounts(rest);
      }
    }
  }

  /** Only a ReadyForQuery counts, and none is ever taken for a completion. */
  lemma DeliveringOutcome(c: Client, b: Backend)
    requires b.out != [] && OwesCompletions(c.owed)
    ensures var (c', b') := Delivering(c, b); var r := b.out[0];
      && c'.closedBatch == c.closedBatch
      && c'.pending == (if r.Ready? then Completed(c.pending, r.status).1 else c.pending)
      && c'.attached == (if r.Ready? && Completed(c.pending, r.status).0 then None else c.attached)
      && c'.tidy == (if r.Ready? && Completed(c.pending, r.status).0 then c.tidy && c.closedBatch else c.tidy)
  {
  }

  /** The backend goes back to the pool exactly when this reply was the last ReadyForQuery
      owed and reports no open transaction; and then, if the client's last message ended a
      unit, nothing at all is left in flight, nor owed if that was always so. */
  lemma DeliveringAccounts(c: Client, b: Backend)
    requires b.out != [] && Accounted(c, b) && OwesCompletions(c.owed)
    ensures var (c', b') := Delivering(c, b);
      && c'.pending == Counted(b'.wire) + Readies(b'.out)
      && (c'.attached == c.attached ==> Accounted(c', b'))
      && (c'.attached != c.attached ==> c'.attached.None? && c'.pending == 0 && b.out[0] == Ready(TX_IDLE))
      && (c'.attached != c.attached && c.closedBatch ==> b'.wire == [] && b'.out == [])
      && (c'.attached != c.attached && c'.tidy ==> c'.owed == [])
  {
    DeliveringOutcome(c, b);
    DeliveringReads(c, b);
    ReadingOne(b);
    if c.tidy {
      DeliveringSettles(c, b);
    }
  }

  lemma DeliveringFrame(c: Client, b: Backend)
    requires b.out != [] && OwesCompletions(c.owed)
    ensures var (c', b') := Delivering(c, b);
      && OwesCompletions(c'.owed)
      && c' == c.(owed := c'.owed, pending := c'.pending, attached := c'.attached, tidy := c'.tidy)
      && b' == b.(out := b'.out, holder := b'.holder)
      && ((c'.attached == c.attached && b'.holder == b.holder) || (c'.attached.None? && b'.holder.None?))
  {
  }

  lemma {:induction false} LastReadyCounts(out: seq<Reply>)
    requires out != [] && out[|out| - 1].Ready?
    ensures Readies(out) > 0
  {
    var front, last := out[..|out| - 1], out[|out| - 1..];
    assert out == front + last;
    ReadiesConcat(front, last);
  }

  lemma {:induction false} LastUnitCounts(wire: seq<Sent>)
    requires wire != [] && EndsUnit(wire[|wire| - 1].message)
    ensures Counted(wire) > 0
  {
    var front, last := wire[..|wire| - 1], wire[|wire| - 1..];
    assert wire == front + last;
    CountedConcat(front, last);
  }

  // ---- the invariant ----------------------------------------------------------------

  ghost predicate ClientOk(s: Proxy, k: nat)
    requires k < |s.clients|
  {
    var c := s.clients[k];
    && Remembers(s.limit, c) && OwesCompletions(c.owed)
    && (c.attached.None? ==> c.pending == 0 && (c.tidy && !c.ended ==> c.owed == []))
    && (c.attached.Some? ==>
         var at := c.attached.value;
         && at < |s.backends| && s.backends[at].holder == Some(k)
         && !s.backends[at].broken && Accounted(c, s.backends[at]))
  }

  ghost predicate BackendOk(s: Proxy, b: nat)
    requires b < |s.backends|
  {
    && Mirrored(s.limit, s.backends[b]) && Free(s.backends[b])
    && (s.backends[b].holder.Some? ==>
         var k := s.backends[b].holder.value; k < |s.clients| && s.clients[k].attached == Some(b))
  }

  ghost predicate Inv(s: Proxy) {
    && (forall k :: 0 <= k < |s.clients| ==> ClientOk(s, k))
    && (forall b :: 0 <= b < |s.backends| ==> BackendOk(s, b))
  }

  /** A step that moves client k and backend at together, and nothing else. */
  lemma PairKeepsInv(s: Proxy, k: nat, at: nat, c: Client, b: Backend)
    requires Inv(s) && k < |s.clients| && at < |s.backends|
    requires s.clients[k].attached == Some(at) || (s.clients[k].attached.None? && s.backends[at].holder.None?)
    requires Remembers(s.limit, c) && OwesCompletions(c.owed) && Mirrored(s.limit, b) && Free(b)
    requires (c.attached == Some(at) && b.holder == Some(k) && !b.broken && Accounted(c, b)) ||
             (c.attached.None? && c.pending == 0 && b.holder.None? && (c.tidy && !c.ended ==> c.owed == []))
    ensures Inv(s.(clients := s.clients[k := c], backends := s.backends[at := b]))
  {
    var t := s.(clients := s.clients[k := c], backends := s.backends[at := b]);
    forall j | 0 <= j < |t.clients| ensures ClientOk(t, j) {
      assert ClientOk(s, j) && ClientOk(s, k) && BackendOk(s, at);
    }
    forall j | 0 <= j < |t.backends| ensures BackendOk(t, j) {
      assert BackendOk(s, j) && ClientOk(s, k);
    }
  }

  lemma SendKeepsInv(s: Proxy, k: nat, m: Message, pick: nat)
    requires Inv(s)
    ensures Inv(Next(s, Send(k, m, pick)))
  {
    if k < |s.clients| && !s.clients[k].ended && |m| >= HEADER_SIZE && Target(s, k, pick).Some? {
      var at := Target(s, k, pick).value;
      assert ClientOk(s, k);
      assert BackendOk(s, at);
      var c, b := s.clients[k], s.backends[at];
      SendingMirrors(s.limit, c, b, at, k, m);
      SendingRemembers(s.limit, c, b, at, k, m);
      SendingAccounts(s.limit, c, b, at, k, m);
      var (c', b') := Sending(s.limit, c, b, at, k, m);
      PairKeepsInv(s, k, at, c', b');
    }
  }

  lemma ServeKeepsInv(s: Proxy, at: nat, replies: seq<Reply>)
    requires Inv(s)
    ensures Inv(Next(s, Serve(at, replies)))
  {
    if at < |s.backends| && s.backends[at].wire != [] && Answers(s.backends[at].wire[0], replies) {
      var b := s.backends[at];
      assert BackendOk(s, at);
      ServingKeepsCount(b, replies);
      if b.holder.Some? && s.clients[b.holder.value].tidy {
        assert ClientOk(s, b.holder.value);
        ServingSettles(b, replies, s.clients[b.holder.value].owed);
      }
      var t := Next(s, Serve(at, replies));
      forall j | 0 <= j < |t.clients| ensures ClientOk(t, j) {
        assert ClientOk(s, j);
      }
      forall j | 0 <= j < |t.backends| ensures BackendOk(t, j) {
        assert BackendOk(s, j);
      }
    }
  }

  lemma DeliverKeepsInv(s: Proxy, k: nat)
    requires Inv(s)
    ensures Inv(Next(s, Deliver(k)))
  {
    if k < |s.clients| && s.clients[k].attached.Some? {
      var at := s.clients[k].attached.value;
      assert ClientOk(s, k);
      assert BackendOk(s, at);
      if s.backends[at].out != [] {
        DeliveringAccounts(s.clients[k], s.backends[at]);
        DeliveringFrame(s.clients[k], s.backends[at]);
        var (c, b) := Delivering(s.clients[k], s.backends[at]);
        PairKeepsInv(s, k, at, c, b);
      }
    }
  }

  lemma LeaveKeepsInv(s: Proxy, k: nat)
    requires Inv(s)
    ensures Inv(Next(s, Leave(k)))
  {
    if k < |s.clients| {
      assert ClientOk(s, k);
      var c := s.clients[k];
      var gone := c.(ended := true, attached := None, pending := 0);
      if c.attached.Some? {
        var at := c.attached.value;
        assert BackendOk(s, at);
        PairKeepsInv(s, k, at, gone, s.backends[at].(broken := true, holder := None));
      } else {
        var t := Next(s, Leave(k));
        forall j | 0 <= j < |t.clients| ensures ClientOk(t, j) {
          assert ClientOk(s, j);
        }
        forall j | 0 <= j < |t.backends| ensures BackendOk(t, j) {
          assert BackendOk(s, j);
        }
      }
    }
  }

  lemma NextKeepsInv(s: Proxy, e: Event)
    requires Inv(s)
    ensures Inv(Next(s, e)) && Next(s, e).limit == s.limit
  {
    match e
    case Send(k, m, pick) => SendKeepsInv(s, k, m, pick);
    case Serve(b, replies) => ServeKeepsInv(s, b, replies);
    case Deliver(k) => DeliverKeepsInv(s, k);
    case Leave(k) => LeaveKeepsInv(s, k);
    case _ =>
      var t := Next(s, e);
      forall j | 0 <= j < |t.clients| ensures ClientOk(t, j) {
        assert j < |s.clients| ==> ClientOk(s, j);
      }
      forall j | 0 <= j < |t.backends| ensures BackendOk(t, j) {
        assert j < |s.backends| ==> BackendOk(s, j);
      }
  }

  lemma {:induction false} RunKeepsInv(s: Proxy, events: seq<Event>)
    requires Inv(s)
    ensures Inv(Run(s, events)) && Run(s, events).limit == s.limit
    decreases |events|
  {
    if events != [] {
      NextKeepsInv(s, events[0]);
      RunKeepsInv(Next(s, events[0]), events[1..]);
    }
  }
}
