/** The replies of one backend while a session holds it: those to the client's own
    messages, and among them the completions of what the proxy injected, which the relay
    swallows by kind alone. */
module ReplyOrder {
  import opened Bytes
  import opened Completions
  import opened Sequences
  import opened Statements
  import opened Wire

  datatype Due = Due(kind: byte, injected: bool)

  datatype Link = Link(
    due: seq<Due>,          // replies not read yet, in the order the server sends them
    owed: seq<byte>,        // session.expect
    forwarded: seq<byte>,   // what the client has been given
    own: seq<byte>)         // what its own messages are answered with

  datatype Act = Own(kind: byte) | Inject(kind: byte) | Read

  function Step(l: Link, a: Act): Link {
    match a
    case Own(k) => l.(due := l.due + [Due(k, false)], own := l.own + [k])
    case Inject(k) => l.(due := l.due + [Due(k, true)], owed := l.owed + [k])
    case Read =>
      if l.due == [] then l
      else
        var (mine, owed) := Swallowed(l.owed, l.due[0].kind);
        l.(due := l.due[1..], owed := owed, forwarded := l.forwarded + (if mine then [] else [l.due[0].kind]))
  }

  function Run(l: Link, acts: seq<Act>): Link
    decreases |acts|
  {
    if acts == [] then l else Run(Step(l, acts[0]), acts[1..])
  }

  const NEW: Link := Link([], [], [], [])

  // ---- every reply is accounted for -------------------------------------------------

  function Kinds(due: seq<Due>): seq<byte> {
    if due == [] then [] else [due[0].kind] + Kinds(due[1..])
  }

  function OwnKinds(due: seq<Due>): seq<byte> {
    if due == [] then [] else (if due[0].injected then [] else [due[0].kind]) + OwnKinds(due[1..])
  }

  function InjectedKinds(due: seq<Due>): seq<byte> {
    if due == [] then [] else (if due[0].injected then [due[0].kind] else []) + InjectedKinds(due[1..])
  }

  function Count(kinds: seq<byte>, k: byte): nat {
    if kinds == [] then 0 else (if kinds[0] == k then 1 else 0) + Count(kinds[1..], k)
  }

  /** Matching greedily, owed is used up by the replies due. */
  predicate Covered(owed: seq<byte>, due: seq<Due>) { Matched(owed, Kinds(due)) }

  lemma {:induction false} CountAppend(a: seq<byte>, b: byte, k: byte)
    ensures Count(a + [b], k) == Count(a, k) + (if b == k then 1 else 0)
  {
    if a == [] {
      assert a + [b] == [b];
    } else {
      assert (a + [b])[1..] == a[1..] + [b];
      CountAppend(a[1..], b, k);
    }
  }

  lemma {:induction false} KindsConcat(a: seq<Due>, b: seq<Due>)
    ensures Kinds(a + b) == Kinds(a) + Kinds(b)
  {
    if a == [] {
      assert a + b == b;
    } else {
      assert (a + b)[1..] == a[1..] + b && (a + b)[0] == a[0];
      KindsConcat(a[1..], b);
    }
  }

  lemma {:induction false} OwnConcat(a: seq<Due>, b: seq<Due>)
    ensures OwnKinds(a + b) == OwnKinds(a) + OwnKinds(b)
  {
    if a == [] {
      assert a + b == b;
    } else {
      var all, first := a + b, if a[0].injected then [] else [a[0].kind];
      assert all[0] == a[0] && all[1..] == a[1..] + b;
      OwnConcat(a[1..], b);
      assert OwnKinds(all) == first + OwnKinds(all[1..]);
      Joined(first, OwnKinds(a[1..]), OwnKinds(b));
    }
  }

  lemma {:induction false} InjectedConcat(a: seq<Due>, b: seq<Due>)
    ensures InjectedKinds(a + b) == InjectedKinds(a) + InjectedKinds(b)
  {
    if a == [] {
      assert a + b == b;
    } else {
      var all, first := a + b, if a[0].injected then [a[0].kind] else [];
      assert all[0] == a[0] && all[1..] == a[1..] + b;
      InjectedConcat(a[1..], b);
      assert InjectedKinds(all) == first + InjectedKinds(all[1..]);
      Joined(first, InjectedKinds(a[1..]), InjectedKinds(b));
    }
  }

  lemma KindsAppend(due: seq<Due>, d: Due)
    ensures Kinds(due + [d]) == Kinds(due) + [d.kind]
    ensures OwnKinds(due + [d]) == OwnKinds(due) + (if d.injected then [] else [d.kind])
    ensures InjectedKinds(due + [d]) == InjectedKinds(due) + (if d.injected then [d.kind] else [])
  {
    KindsConcat(due, [d]);
    OwnConcat(due, [d]);
    InjectedConcat(due, [d]);
    assert [d][1..] == [];
  }

  ghost predicate Balanced(l: Link, k: byte) {
    Count(l.forwarded, k) + Count(Kinds(l.due), k) == Count(l.own, k) + Count(l.owed, k)
  }

  lemma StepBalances(l: Link, a: Act, k: byte)
    requires Covered(l.owed, l.due) && Balanced(l, k)
    ensures Covered(Step(l, a).owed, Step(l, a).due) && Balanced(Step(l, a), k)
  {
    match a
    case Own(b) =>
      KindsAppend(l.due, Due(b, false));
      assert Kinds(l.due) + [] == Kinds(l.due) && Kinds(l.due) + [b] + [] == Kinds(l.due) + [b];
      MatchedAround(l.owed, Kinds(l.due), [b], []);
      CountAppend(Kinds(l.due), b, k);
      CountAppend(l.own, b, k);
    case Inject(b) =>
      KindsAppend(l.due, Due(b, true));
      MatchedItself([b]);
      MatchedConcat(l.owed, Kinds(l.due), [b], [b]);
      CountAppend(Kinds(l.due), b, k);
      CountAppend(l.owed, b, k);
    case Read =>
      if l.due != [] {
        CountAppend(l.forwarded, l.due[0].kind, k);
        assert l.forwarded + [] == l.forwarded;
      }
  }

  lemma {:induction false} RunBalances(l: Link, acts: seq<Act>, k: byte)
    requires Covered(l.owed, l.due) && Balanced(l, k)
    ensures Covered(Run(l, acts).owed, Run(l, acts).due) && Balanced(Run(l, acts), k)
    decreases |acts|
  {
    if acts != [] {
      StepBalances(l, acts[0], k);
      RunBalances(Step(l, acts[0]), acts[1..], k);
    }
  }

  /** However injections, the client's messages and reads interleave: once every reply is
      read nothing is owed, and the client has been given, kind by kind, exactly as many
      replies as its own messages are answered with. */
  lemma SwallowingIsComplete(acts: seq<Act>, k: byte)
    requires Run(NEW, acts).due == []
    ensures Run(NEW, acts).owed == [] && Count(Run(NEW, acts).forwarded, k) == Count(Run(NEW, acts).own, k)
  {
    RunBalances(NEW, acts, k);
  }

  // ---- and in order, when ------------------------------------------------------------

  predicate Completion(kind: byte) { kind == PARSE_COMPLETE || kind == CLOSE_COMPLETE }

  /** No Parse or Close of the client's own is unanswered. */
  ghost predicate Quiet(due: seq<Due>) {
    forall i :: 0 <= i < |due| ==> !due[i].injected ==> !Completion(due[i].kind)
  }

  /** Every injection happens while the client's own Parses and Closes are answered. */
  ghost predicate Considerate(l: Link, acts: seq<Act>)
    decreases |acts|
  {
    acts == [] ||
    ((acts[0].Inject? ==> Completion(acts[0].kind) && Quiet(l.due)) && Considerate(Step(l, acts[0]), acts[1..]))
  }

  /** The client's own completions are due after everything injected. */
  ghost predicate Ordered(due: seq<Due>) {
    forall i, j :: 0 <= i < j < |due| && due[j].injected && !due[i].injected ==> !Completion(due[i].kind)
  }

  ghost predicate Exact(l: Link) {
    && Ordered(l.due) && (forall i :: 0 <= i < |l.due| && l.due[i].injected ==> Completion(l.due[i].kind))
    && l.owed == InjectedKinds(l.due)
    && l.forwarded + OwnKinds(l.due) == l.own
  }

  lemma {:induction false} SomethingInjected(due: seq<Due>) returns (i: nat)
    requires InjectedKinds(due) != []
    ensures i < |due| && due[i].injected && InjectedKinds(due)[0] == due[i].kind
  {
    if due[0].injected {
      i := 0;
    } else {
      i := SomethingInjected(due[1..]);
      i := i + 1;
    }
  }

  lemma InjectedReadIsExact(l: Link)
    requires Exact(l) && l.due != [] && l.due[0].injected
    ensures Exact(Step(l, Read))
  {
    var d, rest := l.due[0], l.due[1..];
    assert InjectedKinds(l.due) == [d.kind] + InjectedKinds(rest);
    assert l.owed[1..] == InjectedKinds(rest);
    assert OwnKinds(l.due) == OwnKinds(rest);
    assert l.forwarded + [] == l.forwarded;
  }

  lemma OwnReadIsExact(l: Link)
    requires Exact(l) && l.due != [] && !l.due[0].injected
    ensures Exact(Step(l, Read))
  {
    var d, rest := l.due[0], l.due[1..];
    assert l.owed == InjectedKinds(rest);
    if l.owed != [] {
      var i := SomethingInjected(rest);
      assert l.due[i + 1] == rest[i];
    }
    Joined(l.forwarded, [d.kind], OwnKinds(rest));
  }

  lemma StepIsExact(l: Link, a: Act)
    requires Exact(l) && (a.Inject? ==> Completion(a.kind) && Quiet(l.due))
    ensures Exact(Step(l, a))
  {
    match a
    case Own(b) =>
      KindsAppend(l.due, Due(b, false));
      assert l.forwarded + (OwnKinds(l.due) + [b]) == (l.forwarded + OwnKinds(l.due)) + [b];
    case Inject(b) =>
      KindsAppend(l.due, Due(b, true));
      assert OwnKinds(l.due) + [] == OwnKinds(l.due);
    case Read =>
      if l.due != [] {
        if l.due[0].injected {
          InjectedReadIsExact(l);
        } else {
          OwnReadIsExact(l);
        }
      }
  }

  lemma {:induction false} RunIsExact(l: Link, acts: seq<Act>)
    requires Exact(l) && Considerate(l, acts)
    ensures Exact(Run(l, acts))
    decreases |acts|
  {
    if acts != [] {
      StepIsExact(l, acts[0]);
      RunIsExact(Step(l, acts[0]), acts[1..]);
    }
  }

  /** Then what the client has been given so far, followed by its own replies still due,
      is at every moment exactly the sequence its own messages are answered with. */
  lemma RepliesStayInOrder(acts: seq<Act>)
    requires Considerate(NEW, acts)
    ensures var l := Run(NEW, acts); l.forwarded + OwnKinds(l.due) == l.own
    ensures var l := Run(NEW, acts); l.due == [] ==> l.forwarded == l.own && l.owed == []
  {
    RunIsExact(NEW, acts);
    var l := Run(NEW, acts);
    assert l.forwarded + [] == l.forwarded;
  }

  // ---- exactly when one injection is harmless ---------------------------------------

  /** What the client is given when everything due is read. */
  function Drained(owed: seq<byte>, due: seq<Due>): seq<byte>
    decreases |due|
  {
    if due == [] then []
    else
      var (mine, rest) := Swallowed(owed, due[0].kind);
      (if mine then [] else [due[0].kind]) + Drained(rest, due[1..])
  }

  /** Drained is what Read after Read forwards. */
  lemma {:induction false} ReadingDrains(l: Link, steps: seq<Act>)
    requires |steps| == |l.due| && forall i :: 0 <= i < |steps| ==> steps[i] == Read
    ensures var t := Run(l, steps); t.due == [] && t.forwarded == l.forwarded + Drained(l.owed, l.due)
    decreases |steps|
  {
    if steps == [] {
      assert l.forwarded + [] == l.forwarded;
    } else {
      var next := Step(l, Read);
      ReadingDrains(next, steps[1..]);
      var mine := Swallowed(l.owed, l.due[0].kind).0;
      var first := if mine then [] else [l.due[0].kind];
      assert next.forwarded == l.forwarded + first;
      assert Drained(l.owed, l.due) == first + Drained(next.owed, next.due);
      assert (l.forwarded + first) + Drained(next.owed, next.due) ==
        l.forwarded + (first + Drained(next.owed, next.due));
    }
  }

  /** From the first reply of kind k on, everything is of kind k. */
  predicate AllAfterFirst(kinds: seq<byte>, k: byte) {
    kinds == [] || (if kinds[0] == k then All(kinds, k) else AllAfterFirst(kinds[1..], k))
  }

  predicate All(kinds: seq<byte>, k: byte) {
    forall i :: 0 <= i < |kinds| ==> kinds[i] == k
  }

  lemma {:induction false} NothingOwed(due: seq<Due>)
    ensures Drained([], due) == Kinds(due)
  {
    if due != [] {
      NothingOwed(due[1..]);
    }
  }

  /** kinds followed by k is k followed by kinds exactly when it is all k. */
  lemma {:induction false} Rotates(kinds: seq<byte>, k: byte, tail: seq<byte>)
    ensures kinds + [k] + tail == [k] + kinds + tail <==> All(kinds, k)
  {
    if kinds != [] {
      var a, b := kinds + [k] + tail, [k] + kinds + tail;
      if a == b {
        assert a[0] == kinds[0] && b[0] == k;
        assert a[1..] == kinds[1..] + [k] + tail;
        assert b[1..] == [k] + kinds[1..] + tail;
        Rotates(kinds[1..], k, tail);
        assert forall i :: 1 <= i < |kinds| ==> kinds[i] == kinds[1..][i - 1];
      }
    }
  }

  lemma DrainsAfterOwn(before: seq<Due>, k: byte, after: seq<Due>)
    requires before != [] && before[0].kind == k
    ensures Drained([k], before + [Due(k, true)] + after) == Kinds(before[1..]) + [k] + Kinds(after)
  {
    var due, rest := before + [Due(k, true)] + after, before[1..] + [Due(k, true)] + after;
    assert due[0] == before[0] && due[1..] == rest && [k][1..] == [];
    assert Drained([k], due) == Drained([], rest);
    NothingOwed(rest);
    KindsConcat(before[1..] + [Due(k, true)], after);
    KindsAppend(before[1..], Due(k, true));
  }

  lemma AllBehindOne(kinds: seq<byte>, k: byte)
    ensures All([k] + kinds, k) <==> All(kinds, k)
  {
    assert forall i :: 1 <= i <= |kinds| ==> ([k] + kinds)[i] == kinds[i - 1];
    assert forall i :: 0 <= i < |kinds| ==> kinds[i] == ([k] + kinds)[i + 1];
  }

  /** The client's own first reply of the kind is taken for the injected one. */
  lemma OwnIsTaken(before: seq<Due>, k: byte, after: seq<Due>)
    requires before != [] && before[0].kind == k
    ensures Drained([k], before + [Due(k, true)] + after) == Kinds(before) + Kinds(after) <==> All(Kinds(before), k)
  {
    var kinds := Kinds(before[1..]);
    DrainsAfterOwn(before, k, after);
    assert Kinds(before) == [k] + kinds;
    Rotates(kinds, k, Kinds(after));
    AllBehindOne(kinds, k);
  }

  lemma SameFront(x: byte, a: seq<byte>, b: seq<byte>)
    ensures [x] + a == [x] + b <==> a == b
  {
    assert ([x] + a)[1..] == a && ([x] + b)[1..] == b;
  }

  lemma {:induction false} OneInjection(before: seq<Due>, k: byte, after: seq<Due>)
    ensures Drained([k], before + [Due(k, true)] + after) == Kinds(before) + Kinds(after) <==>
      AllAfterFirst(Kinds(before), k)
    decreases |before|
  {
    var due := before + [Due(k, true)] + after;
    if before == [] {
      assert due == [Due(k, true)] + after && due[1..] == after && [k][1..] == [];
      NothingOwed(after);
      assert Kinds(before) + Kinds(after) == Kinds(after);
    } else if before[0].kind == k {
      OwnIsTaken(before, k, after);
    } else {
      var rest := before[1..] + [Due(k, true)] + after;
      assert due[0] == before[0] && due[1..] == rest;
      OneInjection(before[1..], k, after);
      SameFront(before[0].kind, Drained([k], rest), Kinds(before[1..]) + Kinds(after));
      assert Kinds(before) + Kinds(after) == [before[0].kind] + (Kinds(before[1..]) + Kinds(after));
    }
  }

  /** Injecting a message answered by kind k in front of the client's own messages: the
      client is given its own replies in order if and only if, at that moment, everything
      due from its first unanswered reply of that kind onwards is of that kind. */
  lemma InjectionKeepsOrderExactly(before: seq<Due>, k: byte, after: seq<Due>)
    requires (forall d :: d in before ==> !d.injected) && (forall d :: d in after ==> !d.injected)
    ensures var due := before + [Due(k, true)] + after;
      Drained([k], due) == OwnKinds(due) <==> AllAfterFirst(Kinds(before), k)
  {
    OneInjection(before, k, after);
    OwnOfOwn(before);
    OwnOfOwn(after);
    OwnConcat(before + [Due(k, true)], after);
    KindsAppend(before, Due(k, true));
    assert OwnKinds(before) + [] == OwnKinds(before);
  }

  lemma {:induction false} OwnOfOwn(due: seq<Due>)
    requires forall d :: d in due ==> !d.injected
    ensures OwnKinds(due) == Kinds(due)
  {
    if due != [] {
      OwnOfOwn(due[1..]);
    }
  }

  // ---- and exactly when any number are -----------------------------------------------

  /** Reading what is due, with some of the client's own replies late because they were
      swallowed in injected ones' place: whatever the client is given meanwhile is of the
      kind of the first late one, and in the end none is late. */
  predicate InStep(late: seq<byte>, owed: seq<byte>, due: seq<Due>)
    decreases |due|
  {
    if due == [] then late == []
    else
      var (mine, rest) := Swallowed(owed, due[0].kind);
      var expected := late + (if due[0].injected then [] else [due[0].kind]);
      if mine then InStep(expected, rest, due[1..])
      else expected != [] && expected[0] == due[0].kind && InStep(expected[1..], rest, due[1..])
  }

  /** What is owed is the injections due, but for as many of the first as own replies are late. */
  ghost predicate Lags(late: nat, owed: seq<byte>, due: seq<Due>) {
    late + |owed| == |InjectedKinds(due)| && owed == InjectedKinds(due)[late..]
  }

  lemma ReadingLags(late: nat, owed: seq<byte>, due: seq<Due>)
    requires Lags(late, owed, due) && due != []
    ensures var (mine, rest) := Swallowed(owed, due[0].kind);
      var expected := late + (if due[0].injected then 0 else 1);
      if mine then Lags(expected, rest, due[1..]) else expected > 0 && Lags(expected - 1, rest, due[1..])
  {
    var all, first := InjectedKinds(due), if due[0].injected then [due[0].kind] else [];
    assert all == first + InjectedKinds(due[1..]) && all[|first|..] == InjectedKinds(due[1..]);
    if late == 0 && due[0].injected {
      assert owed == all && owed[0] == due[0].kind;
    }
  }

  /** The rest comes in order exactly when it comes in step. */
  lemma {:induction false} InStepExactly(late: seq<byte>, owed: seq<byte>, due: seq<Due>)
    requires Lags(|late|, owed, due)
    ensures Drained(owed, due) == late + OwnKinds(due) <==> InStep(late, owed, due)
    decreases |due|
  {
    if due != [] {
      var (mine, rest) := Swallowed(owed, due[0].kind);
      var own := if due[0].injected then [] else [due[0].kind];
      var expected, tail := late + own, OwnKinds(due[1..]);
      ReadingLags(|late|, owed, due);
      Joined(late, own, tail);
      if mine {
        InStepExactly(expected, rest, due[1..]);
        assert [] + Drained(rest, due[1..]) == Drained(rest, due[1..]);
      } else {
        InStepExactly(expected[1..], rest, due[1..]);
        assert expected + tail == [expected[0]] + (expected[1..] + tail);
        if expected[0] == due[0].kind {
          SameFront(due[0].kind, Drained(rest, due[1..]), expected[1..] + tail);
        } else {
          assert ([due[0].kind] + Drained(rest, due[1..]))[0] != (expected + tail)[0];
        }
      }
    }
  }

  /** Replies to messages sent after the last injection make no difference. */
  lemma {:induction false} LaterIsInStep(late: seq<byte>, owed: seq<byte>, due: seq<Due>, after: seq<Due>)
    requires Lags(|late|, owed, due) && forall d :: d in after ==> !d.injected
    ensures InStep(late, owed, due + after) <==> InStep(late, owed, due)
    decreases |due| + |after|
  {
    var all := due + after;
    if due != [] {
      var (mine, rest) := Swallowed(owed, due[0].kind);
      var expected := late + (if due[0].injected then [] else [due[0].kind]);
      ReadingLags(|late|, owed, due);
      assert all[0] == due[0] && all[1..] == due[1..] + after;
      LaterIsInStep(if mine then expected else expected[1..], rest, due[1..], after);
    } else if after != [] {
      assert all == after && [after[0].kind][1..] == [];
      LaterIsInStep([], [], [], after[1..]);
      assert [] + after[1..] == after[1..];
    }
  }

  ghost predicate Behind(l: Link) {
    && |l.forwarded| + |l.due| == |l.own| + |l.owed|
    && |l.owed| <= |InjectedKinds(l.due)|
    && Lags(|InjectedKinds(l.due)| - |l.owed|, l.owed, l.due)
  }

  lemma SendingStaysBehind(l: Link, a: Act)
    requires Behind(l) && !a.Read?
    ensures Behind(Step(l, a))
  {
    var d := Due(a.kind, a.Inject?);
    KindsAppend(l.due, d);
    var all, late := InjectedKinds(l.due), |InjectedKinds(l.due)| - |l.owed|;
    if a.Inject? {
      assert (all + [a.kind])[late..] == all[late..] + [a.kind];
    } else {
      assert all + [] == all;
    }
  }

  lemma ReadingStaysBehind(l: Link)
    requires Behind(l)
    ensures Behind(Step(l, Read))
  {
    if l.due != [] {
      ReadingLags(|InjectedKinds(l.due)| - |l.owed|, l.owed, l.due);
    }
  }

  lemma StepStaysBehind(l: Link, a: Act)
    requires Behind(l)
    ensures Behind(Step(l, a))
  {
    if a.Read? {
      ReadingStaysBehind(l);
    } else {
      SendingStaysBehind(l, a);
    }
  }

  lemma {:induction false} RunStaysBehind(l: Link, acts: seq<Act>)
    requires Behind(l)
    ensures Behind(Run(l, acts))
    decreases |acts|
  {
    if acts != [] {
      StepStaysBehind(l, acts[0]);
      RunStaysBehind(Step(l, acts[0]), acts[1..]);
    }
  }

  lemma {:induction false} DueIsOwnOrInjected(due: seq<Due>)
    ensures |due| == |OwnKinds(due)| + |InjectedKinds(due)|
  {
    if due != [] {
      DueIsOwnOrInjected(due[1..]);
    }
  }

  lemma {:induction false} NothingInjected(due: seq<Due>)
    requires forall d :: d in due ==> !d.injected
    ensures InjectedKinds(due) == []
  {
    if due != [] {
      NothingInjected(due[1..]);
    }
  }

  lemma BehindFront(front: seq<byte>, rest: seq<byte>, tail: seq<byte>, given: seq<byte>)
    ensures front + given == front + rest + tail <==> given == rest + tail
  {
    assert (front + given)[|front|..] == given;
    assert (front + rest + tail)[|front|..] == rest + tail;
    assert front + rest + tail == front + (rest + tail);
  }

  /** The same, with what comes after counted in. */
  lemma {:induction false} InStepToTheEnd(late: seq<byte>, owed: seq<byte>, due: seq<Due>, after: seq<Due>)
    requires Lags(|late|, owed, due) && forall d :: d in after ==> !d.injected
    ensures Drained(owed, due + after) == late + OwnKinds(due) + OwnKinds(after) <==> InStep(late, owed, due)
  {
    InjectedConcat(due, after);
    NothingInjected(after);
    assert InjectedKinds(due) + [] == InjectedKinds(due);
    InStepExactly(late, owed, due + after);
    LaterIsInStep(late, owed, due, after);
    OwnConcat(due, after);
    Joined(late, OwnKinds(due), OwnKinds(after));
  }

  lemma AsManyAreLate(l: Link, late: seq<byte>)
    requires Behind(l) && l.forwarded + late + OwnKinds(l.due) == l.own
    ensures Lags(|late|, l.owed, l.due)
  {
    DueIsOwnOrInjected(l.due);
    assert |l.own| == |l.forwarded| + |late| + |OwnKinds(l.due)|;
  }

  /** Any number of injections, anywhere among the client's messages and its reads. At a
      moment when it has been given its own replies in order, some perhaps late: read to the
      end, and past whatever else it sends, it is given them all in order if and only if what
      is due now comes in step. */
  lemma OrderIsKeptExactly(acts: seq<Act>, late: seq<byte>, after: seq<Due>)
    requires var l := Run(NEW, acts); l.forwarded + late + OwnKinds(l.due) == l.own
    requires forall d :: d in after ==> !d.injected
    ensures var l := Run(NEW, acts);
      l.forwarded + Drained(l.owed, l.due + after) == l.own + OwnKinds(after) <==> InStep(late, l.owed, l.due)
  {
    var l := Run(NEW, acts);
    RunStaysBehind(NEW, acts);
    AsManyAreLate(l, late);
    InStepToTheEnd(late, l.owed, l.due, after);
    Joined(l.forwarded, late, OwnKinds(l.due));
    BehindFront(l.forwarded, late + OwnKinds(l.due), OwnKinds(after), Drained(l.owed, l.due + after));
  }

  /** A client that has Parse and Describe unanswered when its Bind makes the proxy inject a
      Parse sees its ParseComplete after its row description. */
  lemma OrderCanSlip(rowDescription: byte)
    requires rowDescription != PARSE_COMPLETE
    ensures var due := [Due(PARSE_COMPLETE, false), Due(rowDescription, false), Due(PARSE_COMPLETE, true)];
      && Drained([PARSE_COMPLETE], due) == [rowDescription, PARSE_COMPLETE]
      && OwnKinds(due) == [PARSE_COMPLETE, rowDescription]
  {
    var own, mine := [Due(PARSE_COMPLETE, false), Due(rowDescription, false)], [Due(PARSE_COMPLETE, true)];
    var rest := [Due(rowDescription, false)] + mine;
    assert own + mine == [own[0]] + rest;
    assert (own + mine)[1..] == rest && rest[1..] == mine && mine[1..] == [] && [PARSE_COMPLETE][1..] == [];
    NothingOwed(rest);
    OwnConcat(own, mine);
    OwnOfOwn(own);
    assert own[1..] == [own[1]] && own[1..][1..] == [];
  }
}
