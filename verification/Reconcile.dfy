/** What reconcile decides for one client message: which Parses and Closes to inject in
    front of it, and what to remember; and what the server's statement table is made to
    hold by that. */
module Reconcile {
  import opened Bytes
  import opened Options
  import opened Statements
  import opened Server
  import opened Wire

  /** A session and its backend as reconcile sees them: the two statement sets, the
      messages written to the backend, and the completions owed for the injected ones. */
  datatype Plan = Plan(own: Lru, prepared: Lru, injected: seq<Message>, owed: seq<byte>)

  function Injecting(p: Plan, message: Message, completion: byte): Plan {
    p.(injected := p.injected + [message], owed := p.owed + [completion])
  }

  /** hold: record a statement on the backend, closing whatever made room for it. */
  function Held(limit: int, p: Plan, name: Name, message: Message): Plan {
    var (prepared, evicted) := Remembered(p.prepared, limit, name, message);
    var q := p.(prepared := prepared);
    if evicted.None? then q else Injecting(q, CloseStatement(evicted.value), CLOSE_COMPLETE)
  }

  /** Closes what the backend's set holds under a name, if anything. */
  function Cleared(prepared: Lru, p: Plan, name: Name): Plan {
    if Has(prepared, name) then Injecting(p, CloseStatement(name), CLOSE_COMPLETE) else p
  }

  /** ensurePrepared: replay a remembered Parse onto a backend that lacks it. */
  function Ensured(limit: int, p: Plan, name: Name): Plan {
    if !Has(p.own, name) then p
    else
      var remembered := Find(p.own, name).value;
      var q := p.(own := Touched(p.own, name), prepared := Touched(p.prepared, name));
      if Find(p.prepared, name) == Some(remembered) then q
      else Held(limit, Injecting(Cleared(p.prepared, q, name), remembered, PARSE_COMPLETE), name, remembered)
  }

  /** A Parse of a named statement: whatever the backend holds under the name is closed. */
  function Parsed(limit: int, p: Plan, name: Name, message: Message): Plan {
    var q := Cleared(p.prepared, p.(prepared := Touched(p.prepared, name)), name);
    var own := Remembered(p.own, limit, name, message).0;
    Held(limit, q.(own := Touched(own, name)), name, message)
  }

  /** The statement a message of these four kinds names, if it names one at all. */
  function Named(message: Message): Option<Name>
    requires |message| >= HEADER_SIZE
  {
    var name :=
      if Kind(message) == MSG_PARSE then CString(Body(message)) else StatementNameOf(Kind(message), Body(message));
    if name == Some([]) then None else name
  }

  function Reconciled(limit: int, p: Plan, message: Message): Plan
    requires |message| >= HEADER_SIZE
  {
    var kind := Kind(message);
    var name := Named(message);
    if !NamesStatement(kind) || name.None? then p
    else if kind == MSG_PARSE then Parsed(limit, p, name.value, message)
    else if kind == MSG_CLOSE then p.(own := Dropped(p.own, name.value), prepared := Dropped(p.prepared, name.value))
    else Ensured(limit, p, name.value)
  }

  /** A plan carried out after messages and completions that were there already. */
  function Behind(sent: seq<Message>, owed: seq<byte>, p: Plan): Plan {
    p.(injected := sent + p.injected, owed := owed + p.owed)
  }

  lemma HeldBehind(limit: int, sent: seq<Message>, owed: seq<byte>, p: Plan, name: Name, message: Message)
    ensures Held(limit, Behind(sent, owed, p), name, message) == Behind(sent, owed, Held(limit, p, name, message))
  {
  }

  lemma ClearedBehind(prepared: Lru, sent: seq<Message>, owed: seq<byte>, p: Plan, name: Name)
    ensures Cleared(prepared, Behind(sent, owed, p), name) == Behind(sent, owed, Cleared(prepared, p, name))
  {
  }

  lemma ParsedBehind(limit: int, sent: seq<Message>, owed: seq<byte>, p: Plan, name: Name, message: Message)
    ensures Parsed(limit, Behind(sent, owed, p), name, message) == Behind(sent, owed, Parsed(limit, p, name, message))
  {
    var touched := p.(prepared := Touched(p.prepared, name));
    ClearedBehind(p.prepared, sent, owed, touched, name);
    var own := Touched(Remembered(p.own, limit, name, message).0, name);
    HeldBehind(limit, sent, owed, Cleared(p.prepared, touched, name).(own := own), name, message);
  }

  lemma EnsuredBehind(limit: int, sent: seq<Message>, owed: seq<byte>, p: Plan, name: Name)
    ensures Ensured(limit, Behind(sent, owed, p), name) == Behind(sent, owed, Ensured(limit, p, name))
  {
    if Has(p.own, name) {
      var remembered := Find(p.own, name).value;
      var touched := p.(own := Touched(p.own, name), prepared := Touched(p.prepared, name));
      ClearedBehind(p.prepared, sent, owed, touched, name);
      var cleared := Cleared(p.prepared, touched, name);
      var replayed := Injecting(cleared, remembered, PARSE_COMPLETE);
      assert Injecting(Behind(sent, owed, cleared), remembered, PARSE_COMPLETE) == Behind(sent, owed, replayed);
      HeldBehind(limit, sent, owed, replayed, name, remembered);
    }
  }

  /** What was written and owed before makes no difference to what is injected. */
  lemma ReconciledBehind(limit: int, sent: seq<Message>, owed: seq<byte>, p: Plan, message: Message)
    requires |message| >= HEADER_SIZE
    ensures Reconciled(limit, Behind(sent, owed, p), message) == Behind(sent, owed, Reconciled(limit, p, message))
  {
    var name := Named(message);
    if name.Some? {
      ParsedBehind(limit, sent, owed, p, name.value, message);
      EnsuredBehind(limit, sent, owed, p, name.value);
    }
  }

  lemma PlanBehind(limit: int, own: Lru, prepared: Lru, sent: seq<Message>, owed: seq<byte>, message: Message)
    requires |message| >= HEADER_SIZE
    ensures Reconciled(limit, Plan(own, prepared, sent, owed), message) ==
            Behind(sent, owed, Reconciled(limit, Plan(own, prepared, [], []), message))
  {
    assert sent + [] == sent && owed + [] == owed;
    ReconciledBehind(limit, sent, owed, Plan(own, prepared, [], []), message);
  }

  // ---- the server's side ------------------------------------------------------------

  /** The named statements on one server connection, each with the Parse that made it. */
  type Table = map<Name, Message>

  function Executed(t: Table, m: Message): Table {
    if |m| < HEADER_SIZE || Named(m).None? then t
    else if Kind(m) == MSG_PARSE then t[Named(m).value := m]
    else if Kind(m) == MSG_CLOSE then t - {Named(m).value}
    else t
  }

  function After(t: Table, ms: seq<Message>): Table
    decreases |ms|
  {
    if ms == [] then t else After(Executed(t, ms[0]), ms[1..])
  }

  /** A Parse over a name the connection already has is refused with 42P05. */
  predicate Accepted(t: Table, m: Message) {
    |m| >= HEADER_SIZE && Kind(m) == MSG_PARSE && Named(m).Some? ==> Named(m).value !in t
  }

  predicate AllAccepted(t: Table, ms: seq<Message>)
    decreases |ms|
  {
    ms == [] || (Accepted(t, ms[0]) && AllAccepted(Executed(t, ms[0]), ms[1..]))
  }

  lemma {:induction false} AfterAppend(t: Table, ms: seq<Message>, m: Message)
    ensures After(t, ms + [m]) == Executed(After(t, ms), m)
    ensures AllAccepted(t, ms + [m]) <==> AllAccepted(t, ms) && Accepted(After(t, ms), m)
    decreases |ms|
  {
    if ms == [] {
      assert [m][1..] == [] && ms + [m] == [m];
    } else {
      assert (ms + [m])[1..] == ms[1..] + [m];
      AfterAppend(Executed(t, ms[0]), ms[1..], m);
    }
  }

  // ---- the bytes say what they are read as ------------------------------------------

  /** Cutting a body at place i finds the string there, if there is one. */
  lemma CutFinds(m: Message, i: nat, text: Name)
    requires i <= |m|
    ensures CString(m[i..]) == Some(text) <==> StringAt(m, i, text)
    ensures CutBytes(m[i..]).Some? ==>
      var (value, rest) := CutBytes(m[i..]).value; i + |value| < |m| && rest == m[i + |value| + 1..]
  {
    CutSplits(m[i..]);
    if StringAt(m, i, text) {
      var rest := m[i + |text| + 1..];
      assert m[i..] == text + [0] + rest;
      CutIsExact(text, rest);
    }
    if CutBytes(m[i..]).Some? {
      var (value, rest) := CutBytes(m[i..]).value;
      assert m[i..][|value|] == 0 && m[i..][..|value|] == value;
      assert m[i..i + |value|] == m[i..][..|value|];
      assert m[i + |value| + 1..] == m[i..][|value| + 1..] == rest;
    }
  }

  lemma TargetIsRead(m: Message, name: Name)
    requires |m| >= HEADER_SIZE
    ensures TargetName(Body(m)) == Some(name) <==> |m| > 5 && m[5] == 83 && StringAt(m, 6, name)
  {
    if |m| > 5 {
      assert Body(m)[0] == m[5] && Body(m)[1..] == m[6..];
      CutFinds(m, 6, name);
    }
  }

  lemma BindIsRead(m: Message, name: Name)
    requires |m| >= HEADER_SIZE
    ensures BindName(Body(m)) == Some(name) <==>
      exists portal: Name :: StringAt(m, 5, portal) && StringAt(m, 5 + |portal| + 1, name)
  {
    var cut := CutBytes(Body(m));
    if cut.Some? {
      var portal := cut.value.0;
      CutFinds(m, 5, portal);
      CutFinds(m, 5 + |portal| + 1, name);
    }
    forall portal: Name | StringAt(m, 5, portal) ensures cut.Some? && cut.value.0 == portal {
      CutFinds(m, 5, portal);
    }
  }

  /** The names the proxy reads are those its messages carry for the server: an unnamed
      statement, a portal's name or a broken message is none. */
  lemma NamedExactly(m: Message, name: Name)
    requires |m| >= HEADER_SIZE
    ensures NamesStatement(m[0]) <==> m[0] == 80 || m[0] == 66 || m[0] == 68 || m[0] == 67
    ensures Named(m) == Some(name) <==> Prepares(m, name) || Deallocates(m, name) || Uses(m, name)
  {
    CutFinds(m, 5, name);
    TargetIsRead(m, name);
    BindIsRead(m, name);
  }

  /** The table is the server's: a Parse puts its message under its name, and is refused
      over a name that is taken; a Close takes the name out; nothing else matters. */
  lemma ExecutedExactly(t: Table, m: Message)
    ensures forall n :: Prepares(m, n) ==> Executed(t, m) == t[n := m]
    ensures forall n :: Deallocates(m, n) ==> Executed(t, m) == t - {n}
    ensures (forall n :: !Prepares(m, n) && !Deallocates(m, n)) ==> Executed(t, m) == t
    ensures Accepted(t, m) <==> forall n :: Prepares(m, n) ==> n !in t
  {
    forall n | Prepares(m, n) || Deallocates(m, n) ensures Named(m) == Some(n) {
      NamedExactly(m, n);
    }
    if |m| >= HEADER_SIZE && Named(m).Some? {
      NamedExactly(m, Named(m).value);
    }
  }

  // ---- the sets hold what was sent --------------------------------------------------

  /** Every entry is the Parse of its own name. */
  ghost predicate Genuine(l: Lru) {
    Distinct(l) && forall i :: 0 <= i < |l| ==> GenuineEntry(l[i])
  }

  predicate GenuineEntry(e: Entry) {
    |e.message| >= HEADER_SIZE && Kind(e.message) == MSG_PARSE && Named(e.message) == Some(e.name)
  }

  lemma CloseExecutes(t: Table, name: Name)
    requires Sendable(name) && name != []
    ensures Executed(t, CloseStatement(name)) == t - {name} && Accepted(t, CloseStatement(name))
  {
    CloseLayout(name);
    var m := CloseStatement(name);
    assert Body(m)[1..] == name + [0] + [];
    CutIsExact(name, []);
  }

  lemma NamedIsSendable(m: Message)
    requires |m| >= HEADER_SIZE && Named(m).Some?
    ensures Sendable(Named(m).value) && Named(m).value != []
  {
    CutSplits(Body(m));
    if CutBytes(Body(m)).Some? {
      CutSplits(CutBytes(Body(m)).value.1);
    }
    if Body(m) != [] {
      CutSplits(Body(m)[1..]);
    }
  }

  lemma {:induction false} DroppedIsGenuine(l: Lru, name: Name)
    requires Genuine(l)
    ensures Genuine(Dropped(l, name))
  {
    DroppedIsDistinct(l, name);
    if l != [] {
      assert Genuine(l[1..]);
      DroppedIsGenuine(l[1..], name);
    }
  }

  lemma AppendIsGenuine(l: Lru, e: Entry)
    requires Genuine(l) && GenuineEntry(e) && !Has(l, e.name)
    ensures Genuine(l + [e])
  {
    AppendedAsMap(l, e);
  }

  lemma FoundIsGenuine(l: Lru, name: Name)
    requires Genuine(l) && Has(l, name)
    ensures GenuineEntry(Entry(name, Find(l, name).value)) && Sendable(name) && name != []
  {
    var i :| 0 <= i < |l| && l[i].name == name;
    FindIsEntry(l, i);
    NamedIsSendable(l[i].message);
  }

  lemma TouchedIsGenuine(l: Lru, name: Name)
    requires Genuine(l)
    ensures Genuine(Touched(l, name))
  {
    if Has(l, name) {
      DroppedIsGenuine(l, name);
      DroppedIsDistinct(l, name);
      FoundIsGenuine(l, name);
      AppendIsGenuine(Dropped(l, name), Entry(name, Find(l, name).value));
    }
  }

  lemma RememberedIsGenuine(l: Lru, limit: int, name: Name, message: Message)
    requires Genuine(l) && GenuineEntry(Entry(name, message)) && name != []
    ensures Genuine(Remembered(l, limit, name, message).0)
  {
    var e := Entry(name, message);
    if Has(l, name) {
      DroppedIsGenuine(l, name);
      DroppedIsDistinct(l, name);
      AppendIsGenuine(Dropped(l, name), e);
    } else if limit > 0 && |l| >= limit {
      AppendIsGenuine(l[1..], e);
    } else {
      AppendIsGenuine(l, e);
    }
  }

  // ---- one message ------------------------------------------------------------------

  /** What the backend's set must be for the plan so far, given that the server's table
      was t: the plan's injections leave the server with server, all accepted. */
  ghost predicate Leaves(t: Table, p: Plan, server: Table) {
    AllAccepted(t, p.injected) && After(t, p.injected) == server
  }

  lemma InjectLeaves(t: Table, p: Plan, server: Table, m: Message, completion: byte)
    requires Leaves(t, p, server) && Accepted(server, m)
    ensures Leaves(t, Injecting(p, m, completion), Executed(server, m))
  {
    AfterAppend(t, p.injected, m);
  }

  /** The server's table once hold has closed what it evicted. */
  function WithoutEvicted(limit: int, prepared: Lru, server: Table, name: Name, message: Message): Table {
    var evicted := Remembered(prepared, limit, name, message).1;
    if evicted.None? then server else server - {evicted.value}
  }

  lemma HeldLeaves(limit: int, t: Table, p: Plan, server: Table, name: Name, message: Message)
    requires Genuine(p.prepared) && name != [] && Leaves(t, p, server)
    ensures Leaves(t, Held(limit, p, name, message), WithoutEvicted(limit, p.prepared, server, name, message))
  {
    RememberedAsMap(p.prepared, limit, name, message);
    var (prepared, evicted) := Remembered(p.prepared, limit, name, message);
    if evicted.Some? {
      NamedIsSendable(p.prepared[0].message);
      CloseExecutes(server, evicted.value);
      InjectLeaves(t, p.(prepared := prepared), server, CloseStatement(evicted.value), CLOSE_COMPLETE);
    }
  }

  lemma HeldSet(limit: int, p: Plan, name: Name, message: Message)
    requires Genuine(p.prepared) && GenuineEntry(Entry(name, message)) && name != []
    ensures var q := Held(limit, p, name, message);
      && Genuine(q.prepared) && q.own == p.own
      && (limit > 0 && |p.prepared| <= limit ==> |q.prepared| <= limit)
  {
    RememberedAsMap(p.prepared, limit, name, message);
    RememberedIsGenuine(p.prepared, limit, name, message);
  }

  // ---- what is owed -----------------------------------------------------------------

  ghost predicate Readable(ms: seq<Message>) { forall m :: m in ms ==> |m| >= HEADER_SIZE }

  function Answering(ms: seq<Message>): seq<byte>
    requires Readable(ms)
  {
    if ms == [] then [] else [Completion(ms[0])] + Answering(ms[1..])
  }

  /** What a plan owes is what the server will answer its injections with, in order. */
  ghost predicate Owes(p: Plan) { Readable(p.injected) && p.owed == Answering(p.injected) }

  lemma {:induction false} AnsweringAppend(ms: seq<Message>, m: Message)
    requires Readable(ms) && |m| >= HEADER_SIZE
    ensures Readable(ms + [m]) && Answering(ms + [m]) == Answering(ms) + [Completion(m)]
  {
    if ms == [] {
      assert ms + [m] == [m];
    } else {
      assert (ms + [m])[0] == ms[0] && (ms + [m])[1..] == ms[1..] + [m];
      AnsweringAppend(ms[1..], m);
    }
  }

  lemma InjectingOwes(p: Plan, m: Message, completion: byte)
    requires Owes(p) && |m| >= HEADER_SIZE && completion == Completion(m)
    ensures Owes(Injecting(p, m, completion))
  {
    AnsweringAppend(p.injected, m);
  }

  lemma HeldOwes(limit: int, p: Plan, name: Name, message: Message)
    requires Owes(p)
    ensures Owes(Held(limit, p, name, message))
  {
    var (prepared, evicted) := Remembered(p.prepared, limit, name, message);
    if evicted.Some? {
      CloseLayout(evicted.value);
      InjectingOwes(p.(prepared := prepared), CloseStatement(evicted.value), CLOSE_COMPLETE);
    }
  }

  lemma ClearedOwes(prepared: Lru, p: Plan, name: Name)
    requires Owes(p)
    ensures Owes(Cleared(prepared, p, name))
  {
    if Has(prepared, name) {
      CloseLayout(name);
      InjectingOwes(p, CloseStatement(name), CLOSE_COMPLETE);
    }
  }

  /** Every message a client sends leaves owed exactly the completions of what is injected
      in front of it. */
  lemma ReconciledOwes(limit: int, own: Lru, prepared: Lru, m: Message)
    requires Genuine(own) && |m| >= HEADER_SIZE
    ensures Owes(Reconciled(limit, Plan(own, prepared, [], []), m))
  {
    var p, name := Plan(own, prepared, [], []), Named(m);
    if name.Some? && Kind(m) == MSG_PARSE {
      var q := Cleared(prepared, p.(prepared := Touched(prepared, name.value)), name.value);
      ClearedOwes(prepared, p.(prepared := Touched(prepared, name.value)), name.value);
      HeldOwes(limit, q.(own := Touched(Remembered(own, limit, name.value, m).0, name.value)), name.value, m);
    } else if name.Some? && Has(own, name.value) && Find(prepared, name.value) != Find(own, name.value) {
      var remembered := Find(own, name.value).value;
      var q := p.(own := Touched(own, name.value), prepared := Touched(prepared, name.value));
      FoundIsGenuine(own, name.value);
      ClearedOwes(prepared, q, name.value);
      InjectingOwes(Cleared(prepared, q, name.value), remembered, PARSE_COMPLETE);
      HeldOwes(limit, Injecting(Cleared(prepared, q, name.value), remembered, PARSE_COMPLETE), name.value, remembered);
    }
  }

  /** hold keeps the set and the server's table equal but for the statement it holds. */
  lemma HeldMirrors(limit: int, p: Plan, server: Table, name: Name, message: Message)
    requires Genuine(p.prepared) && name != []
    requires server - {name} == AsMap(p.prepared) - {name}
    ensures var s := WithoutEvicted(limit, p.prepared, server, name, message);
      && AsMap(Held(limit, p, name, message).prepared) == s[name := message]
      && (name in s <==> name in server) && (name in s ==> s[name] == server[name])
  {
    RememberedAsMap(p.prepared, limit, name, message);
    var evicted := Remembered(p.prepared, limit, name, message).1;
    if evicted.Some? {
      var gone := evicted.value;
      DropsCommute(AsMap(p.prepared), gone, name);
      DropsCommute(server, gone, name);
      PutAgrees(AsMap(p.prepared) - {gone}, server - {gone}, name, message);
    } else {
      PutAgrees(AsMap(p.prepared), server, name, message);
    }
  }

  lemma DropsCommute(a: Table, m: Name, n: Name)
    ensures (a - {m}) - {n} == (a - {n}) - {m}
  {
  }

  lemma PutAgrees(a: Table, b: Table, name: Name, message: Message)
    requires a - {name} == b - {name}
    ensures a[name := message] == b[name := message]
  {
    PutOverDropped(a, name, message);
    PutOverDropped(b, name, message);
  }

  /** Closing whatever the backend holds under a name leaves it without that name. */
  lemma {:induction false} CloseFirst(prepared: Lru, p: Plan, name: Name)
    requires Genuine(prepared) && Sendable(name) && name != [] && p.injected == []
    ensures Leaves(AsMap(prepared), Cleared(prepared, p, name), AsMap(prepared) - {name})
  {
    var t := AsMap(prepared);
    AsMapIs(prepared, name);
    if Has(prepared, name) {
      CloseExecutes(t, name);
      InjectLeaves(t, p, t, CloseStatement(name), CLOSE_COMPLETE);
    } else {
      assert t - {name} == t;
    }
  }

  /** Holding a statement the server has just been sent keeps the set its mirror. */
  lemma HoldingMirrors(limit: int, t: Table, r: Plan, server: Table, name: Name, message: Message)
    requires Genuine(r.prepared) && name != [] && Leaves(t, r, server)
    requires server - {name} == AsMap(r.prepared) - {name} && name in server && server[name] == message
    ensures var q := Held(limit, r, name, message);
      && Leaves(t, q, AsMap(q.prepared)) && name in AsMap(q.prepared) && AsMap(q.prepared)[name] == message
  {
    HeldLeaves(limit, t, r, server, name, message);
    HeldMirrors(limit, r, server, name, message);
    var s := WithoutEvicted(limit, r.prepared, server, name, message);
    assert s[name := message] == s;
  }

  /** Replaying a remembered Parse puts it, and nothing else, under its name. */
  lemma {:induction false} ReplayMirrors(limit: int, prepared: Lru, p: Plan, name: Name, remembered: Message)
    requires Genuine(prepared) && Genuine(p.prepared) && AsMap(p.prepared) == AsMap(prepared) && p.injected == []
    requires GenuineEntry(Entry(name, remembered)) && Sendable(name) && name != []
    ensures var q := Held(limit, Injecting(Cleared(prepared, p, name), remembered, PARSE_COMPLETE), name, remembered);
      && Leaves(AsMap(prepared), q, AsMap(q.prepared))
      && name in AsMap(q.prepared) && AsMap(q.prepared)[name] == remembered
  {
    var t, cleared := AsMap(prepared), Cleared(prepared, p, name);
    CloseFirst(prepared, p, name);
    InjectLeaves(t, cleared, t - {name}, remembered, PARSE_COMPLETE);
    HoldingMirrors(limit, t, Injecting(cleared, remembered, PARSE_COMPLETE),
      (t - {name})[name := remembered], name, remembered);
  }

  /** What ensurePrepared leaves: the set mirrors the server's table, every injection is
      accepted, and the statement the client means is there, byte for byte. */
  lemma EnsuredMirrors(limit: int, own: Lru, prepared: Lru, name: Name)
    requires Genuine(own) && Genuine(prepared) && name != []
    ensures var p := Ensured(limit, Plan(own, prepared, [], []), name);
      && Leaves(AsMap(prepared), p, AsMap(p.prepared))
      && (Has(own, name) ==> name in AsMap(p.prepared) && Some(AsMap(p.prepared)[name]) == Find(own, name))
  {
    if Has(own, name) {
      TouchedAsMap(prepared, name);
      if Find(prepared, name) == Find(own, name) {
        AsMapIs(prepared, name);
      } else {
        FoundIsGenuine(own, name);
        TouchedIsGenuine(prepared, name);
        ReplayMirrors(limit, prepared, Plan(Touched(own, name), Touched(prepared, name), [], []),
          name, Find(own, name).value);
      }
    }
  }

  lemma {:induction false} EnsuredSets(limit: int, own: Lru, prepared: Lru, name: Name)
    requires Genuine(own) && Genuine(prepared) && name != []
    ensures var p := Ensured(limit, Plan(own, prepared, [], []), name);
      && Genuine(p.own) && AsMap(p.own) == AsMap(own) && Genuine(p.prepared)
      && (limit > 0 && |prepared| <= limit ==> |p.prepared| <= limit)
  {
    TouchedAsMap(own, name);
    TouchedIsGenuine(own, name);
    TouchedAsMap(prepared, name);
    TouchedIsGenuine(prepared, name);
    if Has(own, name) {
      FoundIsGenuine(own, name);
      HeldSet(limit, Plan(Touched(own, name), Touched(prepared, name), [], []), name, Find(own, name).value);
    }
  }

  /** What a client's own Parse leaves once it has run. */
  lemma {:induction false} ParsedMirrors(limit: int, own: Lru, prepared: Lru, name: Name, message: Message)
    requires Genuine(own) && Genuine(prepared) && GenuineEntry(Entry(name, message)) && name != []
    ensures var p := Parsed(limit, Plan(own, prepared, [], []), name, message);
      Leaves(AsMap(prepared), p.(injected := p.injected + [message]), AsMap(p.prepared))
  {
    var t := AsMap(prepared);
    NamedIsSendable(message);
    TouchedAsMap(prepared, name);
    TouchedIsGenuine(prepared, name);
    var p := Plan(own, Touched(prepared, name), [], []);
    var q := Cleared(prepared, p, name);
    CloseFirst(prepared, p, name);
    var r, server := q.(own := Touched(Remembered(own, limit, name, message).0, name)), t - {name};
    HeldLeaves(limit, t, r, server, name, message);
    HeldMirrors(limit, r, server, name, message);
    AfterAppend(t, Held(limit, r, name, message).injected, message);
  }

  lemma ParsedSets(limit: int, own: Lru, prepared: Lru, name: Name, message: Message)
    requires Genuine(own) && Genuine(prepared) && GenuineEntry(Entry(name, message)) && name != []
    ensures var p := Parsed(limit, Plan(own, prepared, [], []), name, message);
      && Genuine(p.own) && AsMap(p.own) == AsMap(Remembered(own, limit, name, message).0) && Genuine(p.prepared)
      && (limit > 0 && |prepared| <= limit ==> |p.prepared| <= limit)
  {
    var own' := Remembered(own, limit, name, message).0;
    RememberedAsMap(own, limit, name, message);
    RememberedIsGenuine(own, limit, name, message);
    TouchedAsMap(own', name);
    TouchedIsGenuine(own', name);
    TouchedAsMap(prepared, name);
    TouchedIsGenuine(prepared, name);
    HeldSet(limit, Plan(Touched(own', name), Touched(prepared, name), [], []), name, message);
  }

  /** Forwarding any message, with everything injected in front of it, keeps the
      backend's set equal to the server's statement table, never runs into a name that is
      taken, and keeps a set that fits its limit within it. */
  lemma {:induction false} ReconciledMirrors(limit: int, own: Lru, prepared: Lru, message: Message)
    requires Genuine(own) && Genuine(prepared) && |message| >= HEADER_SIZE
    ensures var p := Reconciled(limit, Plan(own, prepared, [], []), message);
      && AllAccepted(AsMap(prepared), p.injected + [message])
      && AsMap(p.prepared) == After(AsMap(prepared), p.injected + [message])
      && Genuine(p.own) && Genuine(p.prepared)
      && (limit > 0 && |prepared| <= limit ==> |p.prepared| <= limit)
  {
    var t := AsMap(prepared);
    var p := Reconciled(limit, Plan(own, prepared, [], []), message);
    var kind, name := Kind(message), Named(message);
    AfterAppend(t, p.injected, message);
    if name.Some? && NamesStatement(kind) {
      NamedIsSendable(message);
      if kind == MSG_PARSE {
        ParsedMirrors(limit, own, prepared, name.value, message);
        ParsedSets(limit, own, prepared, name.value, message);
      } else if kind == MSG_CLOSE {
        DroppedAsMap(prepared, name.value);
        DroppedIsGenuine(own, name.value);
        DroppedIsGenuine(prepared, name.value);
        DroppedIsDistinct(prepared, name.value);
      } else {
        EnsuredMirrors(limit, own, prepared, name.value);
        EnsuredSets(limit, own, prepared, name.value);
      }
    }
  }

  /** When a Bind or Describe of a statement the session remembers reaches the server, the
      server holds the very Parse the session sent under that name. */
  lemma BindFindsItsParse(limit: int, own: Lru, prepared: Lru, message: Message)
    requires Genuine(own) && Genuine(prepared) && |message| >= HEADER_SIZE
    requires Kind(message) == MSG_BIND || Kind(message) == MSG_DESCRIBE
    requires Named(message).Some? && Has(own, Named(message).value)
    ensures var t := After(AsMap(prepared), Reconciled(limit, Plan(own, prepared, [], []), message).injected);
      Named(message).value in t && Some(t[Named(message).value]) == Find(own, Named(message).value)
  {
    NamedIsSendable(message);
    EnsuredMirrors(limit, own, prepared, Named(message).value);
  }

  // ---- what was used last -----------------------------------------------------------

  ghost predicate LastUsed(l: Lru, name: Name) { l != [] && l[|l| - 1].name == name }

  lemma FoundWhenRemembered(l: Lru, limit: int, name: Name, m: Message)
    requires name != []
    ensures Has(Remembered(l, limit, name, m).0, name) && LastUsed(Remembered(l, limit, name, m).0, name)
  {
    var r := Remembered(l, limit, name, m).0;
    assert r[|r| - 1].name == name;
  }

  lemma HeldIsLastUsed(limit: int, p: Plan, name: Name, m: Message)
    requires name != []
    ensures LastUsed(Held(limit, p, name, m).prepared, name) && Held(limit, p, name, m).own == p.own
  {
    FoundWhenRemembered(p.prepared, limit, name, m);
  }

  lemma ParsedIsLastUsed(limit: int, p: Plan, name: Name, m: Message)
    requires name != []
    ensures var q := Parsed(limit, p, name, m); LastUsed(q.own, name) && LastUsed(q.prepared, name)
  {
    var cleared := Cleared(p.prepared, p.(prepared := Touched(p.prepared, name)), name);
    var own := Touched(Remembered(p.own, limit, name, m).0, name);
    FoundWhenRemembered(p.own, limit, name, m);
    HeldIsLastUsed(limit, cleared.(own := own), name, m);
  }

  lemma EnsuredIsLastUsed(limit: int, p: Plan, name: Name)
    requires name != [] && Has(p.own, name)
    ensures var q := Ensured(limit, p, name); LastUsed(q.own, name) && LastUsed(q.prepared, name)
  {
    var remembered := Find(p.own, name).value;
    var q := p.(own := Touched(p.own, name), prepared := Touched(p.prepared, name));
    if Find(p.prepared, name) == Some(remembered) {
      assert Has(p.prepared, name);
    } else {
      HeldIsLastUsed(limit, Injecting(Cleared(p.prepared, q, name), remembered, PARSE_COMPLETE), name, remembered);
    }
  }

  /** A statement its client parses, or still has parsed and uses, is then the last used in
      both sets, so the next to be evicted from either is another. */
  lemma ReconciledIsLastUsed(limit: int, p: Plan, m: Message, name: Name)
    requires |m| >= HEADER_SIZE && (Prepares(m, name) || (Uses(m, name) && Has(p.own, name)))
    ensures var q := Reconciled(limit, p, m); LastUsed(q.own, name) && LastUsed(q.prepared, name)
  {
    NamedExactly(m, name);
    if Prepares(m, name) {
      ParsedIsLastUsed(limit, p, name, m);
    } else {
      EnsuredIsLastUsed(limit, p, name);
    }
  }
}
