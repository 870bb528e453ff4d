/** Exactly when a backend can go back to the pool with something of its client's still in
    flight. */
module Handover {
  import opened Bytes
  import opened Options
  import opened Completions
  import opened Statements
  import opened Wire
  import opened Reconcile
  import opened Server
  import opened Proxy

  /** What the two ends of one attachment do between a client's messages: the server answers
      the next message, or the relay reads the next reply. */
  datatype Beat = Answered(replies: seq<Reply>) | Read

  function Beaten(c: Client, b: Backend, at: nat, beat: Beat): (Client, Backend) {
    match beat
    case Answered(replies) => if b.wire == [] || !Answers(b.wire[0], replies) then (c, b) else (c, Serving(b, replies))
    case Read => if c.attached != Some(at) || b.out == [] then (c, b) else Delivering(c, b)
  }

  function Beats(c: Client, b: Backend, at: nat, beats: seq<Beat>): (Client, Backend)
    decreases |beats|
  {
    if beats == [] then (c, b)
    else
      var (c', b') := Beaten(c, b, at, beats[0]);
      Beats(c', b', at, beats[1..])
  }

  function AsEvent(k: nat, at: nat, beat: Beat): Event {
    match beat
    case Answered(replies) => Serve(at, replies)
    case Read => Deliver(k)
  }

  function AsEvents(k: nat, at: nat, beats: seq<Beat>): seq<Event> {
    if beats == [] then [] else [AsEvent(k, at, beats[0])] + AsEvents(k, at, beats[1..])
  }

  ghost predicate Attachable(c: Client, at: nat) { c.attached.None? || c.attached == Some(at) }

  lemma {:induction false} BeatsAreEvents(s: Proxy, k: nat, at: nat, beats: seq<Beat>)
    requires k < |s.clients| && at < |s.backends| && Attachable(s.clients[k], at)
    ensures var (c, b) := Beats(s.clients[k], s.backends[at], at, beats);
      Run(s, AsEvents(k, at, beats)) == s.(clients := s.clients[k := c], backends := s.backends[at := b])
    decreases |beats|
  {
    if beats == [] {
      assert s.clients[k := s.clients[k]] == s.clients && s.backends[at := s.backends[at]] == s.backends;
    } else {
      var (c, b) := Beaten(s.clients[k], s.backends[at], at, beats[0]);
      var t := Next(s, AsEvent(k, at, beats[0]));
      BeatIsEvent(s, k, at, beats[0]);
      assert AsEvents(k, at, beats)[1..] == AsEvents(k, at, beats[1..]);
      BeatsAreEvents(t, k, at, beats[1..]);
      var (c', b') := Beats(c, b, at, beats[1..]);
      assert s.clients[k := c][k := c'] == s.clients[k := c'] && s.backends[at := b][at := b'] == s.backends[at := b'];
    }
  }

  lemma BeatIsEvent(s: Proxy, k: nat, at: nat, beat: Beat)
    requires k < |s.clients| && at < |s.backends| && Attachable(s.clients[k], at)
    ensures var (c, b) := Beaten(s.clients[k], s.backends[at], at, beat);
      && Next(s, AsEvent(k, at, beat)) == s.(clients := s.clients[k := c], backends := s.backends[at := b])
      && Attachable(c, at)
  {
    assert s.clients[k := s.clients[k]] == s.clients && s.backends[at := s.backends[at]] == s.backends;
  }

  // ---- the last ReadyForQuery read --------------------------------------------------

  /** The status the last ReadyForQuery of these replies reports. */
  function LastReady(out: seq<Reply>): Option<byte> {
    if out == [] then None
    else if LastReady(out[1..]).Some? then LastReady(out[1..])
    else if out[0].Ready? then Some(out[0].status)
    else None
  }

  lemma {:induction false} LastReadyCount(out: seq<Reply>)
    ensures LastReady(out).None? <==> Readies(out) == 0
  {
    if out != [] {
      LastReadyCount(out[1..]);
    }
  }

  lemma {:induction false} LastReadyConcat(a: seq<Reply>, b: seq<Reply>)
    ensures LastReady(a + b) == if LastReady(b).Some? then LastReady(b) else LastReady(a)
  {
    if a == [] {
      assert a + b == b;
    } else {
      assert (a + b)[0] == a[0] && (a + b)[1..] == a[1..] + b;
      LastReadyConcat(a[1..], b);
    }
  }

  // ---- when nothing can be left behind ----------------------------------------------

  ghost predicate LeftBehind(c: Client, b: Backend) { c.attached.None? && (b.wire != [] || b.out != []) }

  /** The client's last message ended a unit: what is handed over is empty. */
  ghost predicate Shut(c: Client, b: Backend, at: nat) {
    && OwesCompletions(c.owed)
    && (if c.attached.None? then b.wire == [] && b.out == []
        else c.attached == Some(at) && Accounted(c, b) && c.closedBatch)
  }

  /** Nothing counted is left for the server to answer, and the last ReadyForQuery to be
      read, if there is one, reports an open transaction. */
  ghost predicate Stuck(c: Client, b: Backend, at: nat) {
    && OwesCompletions(c.owed) && c.attached == Some(at)
    && c.pending == Counted(b.wire) + Readies(b.out) && Counted(b.wire) == 0 && LastReady(b.out) != Some(TX_IDLE)
  }

  lemma BeatKeepsShut(c: Client, b: Backend, at: nat, beat: Beat)
    requires Shut(c, b, at)
    ensures var (c', b') := Beaten(c, b, at, beat); Shut(c', b', at)
  {
    if beat.Answered? && b.wire != [] && Answers(b.wire[0], beat.replies) {
      ServingKeepsCount(b, beat.replies);
      if c.tidy {
        ServingSettles(b, beat.replies, c.owed);
      }
    } else if beat.Read? && c.attached == Some(at) && b.out != [] {
      DeliveringAccounts(c, b);
      DeliveringFrame(c, b);
    }
  }

  lemma BeatKeepsStuck(c: Client, b: Backend, at: nat, beat: Beat)
    requires Stuck(c, b, at)
    ensures var (c', b') := Beaten(c, b, at, beat); Stuck(c', b', at)
  {
    if beat.Answered? && b.wire != [] && Answers(b.wire[0], beat.replies) {
      ReadiesConcat(b.out, beat.replies);
      LastReadyConcat(b.out, beat.replies);
      LastReadyCount(beat.replies);
    } else if beat.Read? && b.out != [] {
      DeliveringOutcome(c, b);
      DeliveringFrame(c, b);
      DeliveringReads(c, b);
      LastReadyCount(b.out[1..]);
    }
  }

  lemma {:induction false} NeverLeftBehind(c: Client, b: Backend, at: nat, beats: seq<Beat>)
    requires Shut(c, b, at) || Stuck(c, b, at)
    ensures var (c', b') := Beats(c, b, at, beats); !LeftBehind(c', b')
    decreases |beats|
  {
    if beats != [] {
      var (c', b') := Beaten(c, b, at, beats[0]);
      if Shut(c, b, at) {
        BeatKeepsShut(c, b, at, beats[0]);
      } else {
        BeatKeepsStuck(c, b, at, beats[0]);
      }
      NeverLeftBehind(c', b', at, beats[1..]);
    }
  }

  // ---- and when something can -------------------------------------------------------

  /** An answer that leaves no transaction open. */
  function IdleAnswer(w: Sent): seq<Reply> {
    if w.injected && IsCompleted(w.message) then [Other(Completion(w.message))]
    else if EndsUnit(w.message) then [Ready(TX_IDLE)]
    else []
  }

  lemma IdleAnswerAnswers(w: Sent)
    ensures Answers(w, IdleAnswer(w))
    ensures LastReady(IdleAnswer(w)) == (if EndsUnit(w.message) then Some(TX_IDLE) else None)
  {
    if IdleAnswer(w) != [] {
      assert IdleAnswer(w)[1..] == [];
      assert Readies(IdleAnswer(w)) == (if IdleAnswer(w)[0].Ready? then 1 else 0) + Readies([]);
    }
  }

  /** The last message sent ends no unit, and the last ReadyForQuery can still be idle. */
  ghost predicate MayLeave(b: Backend) {
    && b.wire != [] && !EndsUnit(b.wire[|b.wire| - 1].message)
    && (Counted(b.wire) > 0 || LastReady(b.out) == Some(TX_IDLE))
  }

  lemma {:induction false} BeatsConcat(c: Client, b: Backend, at: nat, x: seq<Beat>, y: seq<Beat>)
    ensures var (c', b') := Beats(c, b, at, x); Beats(c, b, at, x + y) == Beats(c', b', at, y)
    decreases |x|
  {
    if x == [] {
      assert x + y == y;
    } else {
      var (c', b') := Beaten(c, b, at, x[0]);
      assert (x + y)[0] == x[0] && (x + y)[1..] == x[1..] + y;
      BeatsConcat(c', b', at, x[1..], y);
    }
  }

  /** The server answers everything that counts, and not the last message. */
  lemma {:induction false} AnswersCounted(c: Client, b: Backend, at: nat) returns (beats: seq<Beat>)
    requires c.attached == Some(at) && MayLeave(b)
    ensures var (c', b') := Beats(c, b, at, beats);
      && c' == c && b'.wire != [] && Counted(b'.wire) == 0 && LastReady(b'.out) == Some(TX_IDLE)
      && Counted(b'.wire) + Readies(b'.out) == Counted(b.wire) + Readies(b.out)
    decreases |b.wire|
  {
    if Counted(b.wire) == 0 {
      beats := [];
    } else {
      var w, rest := b.wire[0], b.wire[1..];
      var replies := IdleAnswer(w);
      IdleAnswerAnswers(w);
      ServingKeepsCount(b, replies);
      LastReadyConcat(b.out, replies);
      assert Counted(b.wire) == (if EndsUnit(w.message) then 1 else 0) + Counted(rest);
      assert rest != [];
      assert rest[|rest| - 1] == b.wire[|b.wire| - 1];
      var later := AnswersCounted(c, Serving(b, replies), at);
      beats := [Answered(replies)] + later;
      assert beats[1..] == later;
    }
  }

  /** The relay reads up to the ReadyForQuery that gives the backend back. */
  lemma {:induction false} ReadsToRelease(c: Client, b: Backend, at: nat) returns (beats: seq<Beat>)
    requires c.attached == Some(at) && OwesCompletions(c.owed)
    requires Counted(b.wire) == 0 && c.pending == Readies(b.out) && LastReady(b.out) == Some(TX_IDLE)
    ensures var (c', b') := Beats(c, b, at, beats); c'.attached.None? && b'.wire == b.wire
    decreases |b.out|
  {
    DeliveringOutcome(c, b);
    DeliveringReads(c, b);
    DeliveringFrame(c, b);
    LastReadyCount(b.out[1..]);
    var (c', b') := Delivering(c, b);
    var later := [];
    if c'.attached.Some? {
      later := ReadsToRelease(c', b', at);
    }
    beats := [Read] + later;
    assert beats[1..] == later;
  }

  lemma SomethingIsLeftBehind(c: Client, b: Backend, at: nat) returns (beats: seq<Beat>)
    requires c.attached == Some(at) && OwesCompletions(c.owed) && MayLeave(b)
    requires c.pending == Counted(b.wire) + Readies(b.out)
    ensures var (c', b') := Beats(c, b, at, beats); LeftBehind(c', b')
  {
    var x := AnswersCounted(c, b, at);
    var (c', b') := Beats(c, b, at, x);
    var y := ReadsToRelease(c', b', at);
    BeatsConcat(c, b, at, x, y);
    beats := x + y;
  }

  // ---- the theorem ------------------------------------------------------------------

  lemma SentIsLast(s: Proxy, k: nat, m: Message, pick: nat)
    requires Inv(s) && k < |s.clients| && !s.clients[k].ended && |m| >= HEADER_SIZE && Target(s, k, pick).Some?
    ensures var t := Next(s, Send(k, m, pick)); var at := Target(s, k, pick).value;
      && at < |s.backends| == |t.backends| && |t.clients| == |s.clients|
      && t.clients[k].attached == Some(at) && t.clients[k].closedBatch == EndsUnit(m)
      && t.backends[at].wire != [] && t.backends[at].wire[|t.backends[at].wire| - 1].message == m
  {
    assert ClientOk(s, k);
  }

  /** Some schedule of one backend's server and its client's relay hands the backend over
      with something still in flight. */
  ghost predicate CanLeaveBehind(s: Proxy, k: nat, at: nat)
    requires k < |s.clients| && at < |s.backends|
  {
    exists beats: seq<Beat> ::
      var t := Run(s, AsEvents(k, at, beats));
      k < |t.clients| && at < |t.backends| && LeftBehind(t.clients[k], t.backends[at])
  }

  /** After any message any client sends in any run: its backend can come back to the pool
      with something of the client's in flight if and only if the message ends no unit, a
      counted message is pending, and either one is still to be answered or the last
      ReadyForQuery to be read is idle. */
  lemma {:induction false} LeftBehindExactly(limit: int, events: seq<Event>, k: nat, m: Message, pick: nat)
    requires var s := Run(Init(limit), events);
      k < |s.clients| && !s.clients[k].ended && |m| >= HEADER_SIZE && Target(s, k, pick).Some?
    ensures var s := Run(Init(limit), events); var t := Next(s, Send(k, m, pick)); var at := Target(s, k, pick).value;
      && k < |t.clients| && at < |t.backends|
      && (CanLeaveBehind(t, k, at) <==>
           !EndsUnit(m) && t.clients[k].pending > 0
           && (Counted(t.backends[at].wire) > 0 || LastReady(t.backends[at].out) == Some(TX_IDLE)))
  {
    RunKeepsInv(Init(limit), events);
    var s := Run(Init(limit), events);
    var t, at := Next(s, Send(k, m, pick)), Target(s, k, pick).value;
    SentIsLast(s, k, m, pick);
    NextKeepsInv(s, Send(k, m, pick));
    assert ClientOk(t, k);
    var c, b := t.clients[k], t.backends[at];
    LastReadyCount(b.out);
    if MayLeave(b) {
      var beats := SomethingIsLeftBehind(c, b, at);
      BeatsAreEvents(t, k, at, beats);
      assert CanLeaveBehind(t, k, at);
    } else {
      assert Shut(c, b, at) || Stuck(c, b, at);
      forall beats: seq<Beat> ensures var u := Run(t, AsEvents(k, at, beats));
        !(k < |u.clients| && at < |u.backends| && LeftBehind(u.clients[k], u.backends[at]))
      {
        BeatsAreEvents(t, k, at, beats);
        NeverLeftBehind(c, b, at, beats);
      }
    }
  }
}
