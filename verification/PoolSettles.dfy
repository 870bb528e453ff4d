/** Shrinking the pool, from the moment the new ceiling is published to the moment
    everything that was out has come back. */
module PoolSettles {
  import opened Sums
  import opened Partition
  import opened PoolProtocol
  import opened Striping
  import opened PoolInvariant
  import opened PoolShrink
  import opened PoolRefines
  import opened PoolTrim
  import Permits

  // ---- a trim nobody disturbs --------------------------------------------------------

  /** The resizer is in trimIdle. */
  predicate Trimming(n: nat, pc: PC) {
    match pc
    case Resizing(m, delta, rz) => m == n && delta == 0 && rz.TrimTest?
    case Probe(p, _, _) => p == ForTrim(n)
    case Holding(_, _, hold) => hold.Judge? && hold.p == ForTrim(n)
    case Destroying(cs, _, back, des) => back == ToTrim(n) && (cs == [] || (des.CloseConn? && |cs| == 1))
    case _ => false
  }

  function TrimLeft(g: Shared, pc: PC): int {
    100 * IdleCount(g) +
    match pc
    case Resizing(_, _, _) => 20
    case Probe(_, _, k) => if k < SHARDS then SHARDS - k else 0
    case Holding(_, _, _) => 70
    case Destroying(cs, _, _, des) => if des.Count? then 50 else if des.Free? then 40 else if cs == [] then 30 else 60
    case _ => 0
  }

  predicate SamePermits(g: Shared, g': Shared) { g'.tokens == g.tokens && g'.debt == g.debt }

  /** The trim touches no permit, and comes to an end. */
  ghost predicate TrimsOn(g: Shared, n: nat, pc: PC, g': Shared, pc': PC) {
    && SamePermits(g, g')
    && (Unlocking(n, pc') || (Trimming(n, pc') && TrimLeft(g', pc') < TrimLeft(g, pc)))
  }

  lemma TrimProbes(g: Shared, n: nat, start: nat, k: nat)
    requires Shaped(g)
    ensures var (g', pc') := ProbeStep(g, ForTrim(n), start, k); TrimsOn(g, n, Probe(ForTrim(n), start, k), g', pc')
  {
    if k < SHARDS && g.shards[ShardAt(start, k)] != [] {
      var conns := g.shards[ShardAt(start, k)];
      SetShard(g, ShardAt(start, k), conns[..|conns| - 1], 0);
    }
  }

  lemma TrimDestroys(g: Shared, n: nat, pc: PC)
    requires Shaped(g) && Trimming(n, pc) && pc.Destroying?
    ensures var (g', pc') := DestroyStep(g, pc.cs, pc.why, pc.back, pc.des, GRANTED); TrimsOn(g, n, pc, g', pc')
  {
    assert DestroyStep(g, pc.cs, pc.why, pc.back, pc.des, GRANTED).0.shards == g.shards;
  }

  lemma TrimStep(cfg: Config, g: Shared, me: nat, n: nat, pc: PC)
    requires Shaped(g) && Trimming(n, pc)
    ensures var (g', pc') := Local(cfg, g, me, pc, GRANTED);
      Shaped(g') && IdleCount(g') >= 0 && TrimsOn(g, n, pc, g', pc')
  {
    LocalShaped(cfg, g, me, pc, GRANTED);
    SumNonNegative(Local(cfg, g, me, pc, GRANTED).0.shards, Length);
    if pc.Probe? {
      TrimProbes(g, n, pc.start, pc.k);
    } else if pc.Destroying? {
      TrimDestroys(g, n, pc);
    }
  }

  lemma {:induction false} TrimAlone(cfg: Config, g: Shared, me: nat, n: nat, pc: PC) returns (steps: nat)
    requires Shaped(g) && Trimming(n, pc) && IdleCount(g) >= 0
    ensures var (h, q) := Alone(cfg, g, me, pc, GRANTED, steps); Unlocking(n, q) && SamePermits(g, h)
    decreases TrimLeft(g, pc)
  {
    TrimStep(cfg, g, me, n, pc);
    var (g', pc') := Local(cfg, g, me, pc, GRANTED);
    Stepped(cfg, g, me, pc, GRANTED, 1);
    if Unlocking(n, pc') {
      steps := 1;
    } else {
      steps := TrimAlone(cfg, g', me, n, pc');
      Stepped(cfg, g, me, pc, GRANTED, steps + 1);
      steps := steps + 1;
    }
  }

  lemma {:induction false} AloneIsRun(cfg: Config, s: State, me: nat, ch: Choice, n: nat) returns (labels: seq<Label>)
    requires Shaped(s.g) && me < |s.actors| && !ch.op.SetMaxConns?
    ensures AsksOnce(labels, me) && AsksNothing(labels) && forall i :: 0 <= i < |labels| ==> labels[i].actor == me
    ensures var (g, pc) := Alone(cfg, s.g, me, s.actors[me], ch, n);
      Run(cfg, s, labels) == State(g, s.actors[me := pc])
    decreases n
  {
    if n == 0 {
      labels := [];
      assert s.actors[me := s.actors[me]] == s.actors;
    } else {
      var l := Label(me, ch);
      var t := Step(cfg, s, l);
      Stepped(cfg, s.g, me, s.actors[me], ch, n);
      var rest := AloneIsRun(cfg, t, me, ch, n - 1);
      labels := [l] + rest;
      assert labels[1..] == rest;
      assert s.actors[me := t.actors[me]][me := Run(cfg, t, rest).actors[me]] ==
        s.actors[me := Run(cfg, t, rest).actors[me]];
    }
  }

  lemma TokensFit(cfg: Config, s: State, r: nat, n: nat)
    requires Inv(cfg, s) && r < |s.actors| && s.actors[r] == Resizing(n, 0, SwapLimit)
    ensures s.g.tokens <= cfg.maxConnsLimit && n <= cfg.maxConnsLimit
  {
    assert Knows(cfg, s.g, r, s.actors[r]);
    PermitsNonNegative(s);
  }

  /** A resizer that nobody disturbs comes to unlock, with the others where they were and
      the permits as the whole operation leaves them. */
  lemma UnlocksAlone(cfg: Config, s: State, r: nat, n: nat) returns (steps: nat)
    requires Inv(cfg, s) && r < |s.actors| && s.actors[r] == Resizing(n, 0, SwapLimit)
    ensures var (h, q) := Alone(cfg, s.g, r, s.actors[r], GRANTED, steps);
      var resized := Permits.Resized(PermitsOf(cfg, s.g), n);
      Unlocking(n, q) && h.tokens == resized.tokens && h.debt == resized.debt
  {
    TokensFit(cfg, s, r, n);
    SumNonNegative(s.g.shards, Length);
    var loop := ResizeAlone(cfg, s.g, r, n, GRANTED);
    var h := With(s.g, Permits.Resized(PermitsOf(cfg, s.g), n));
    assert h.shards == s.g.shards;
    var trim := TrimAlone(cfg, h, r, n, Resizing(n, 0, TrimTest));
    AloneConcat(cfg, s.g, r, s.actors[r], GRANTED, loop, trim);
    steps := loop + trim;
  }

  /** With too many cleared, a trim that nobody disturbs unlocks with all of them still on
      their way to a shard. */
  lemma SurplusIsMissed(cfg: Config, s: State, r: nat, n: nat) returns (labels: seq<Label>)
    requires Inv(cfg, s) && r < |s.actors| && s.actors[r] == Resizing(n, 0, SwapLimit)
    requires Sum(s.actors, Cleared(n)) > n
    ensures AsksOnce(labels, r)
    ensures var t := Run(cfg, s, labels);
      r < |t.actors| && Unlocking(n, t.actors[r]) && Settling(t, n) > n
  {
    var steps := UnlocksAlone(cfg, s, r, n);
    labels := AloneIsRun(cfg, s, r, GRANTED, steps);
    var t := Run(cfg, s, labels);
    SumUpdate(s.actors, Cleared(n), r, t.actors[r]);
    SumNonNegative(t.g.shards, Length);
  }

  /** The moment SetMaxConns(n) has published its ceiling, with no warm-up about to act on
      an earlier one. */
  ghost predicate JustPublished(cfg: Config, s: State, r: nat, n: nat) {
    && Inv(cfg, s) && r < |s.actors| && s.actors[r] == Resizing(n, 0, SwapLimit)
    && forall i :: 0 <= i < |s.actors| ==> WarmsBelow(n, s.actors[i])
  }

  lemma PublishedTrims(cfg: Config, s: State, r: nat, n: nat)
    requires JustPublished(cfg, s, r, n) && Sum(s.actors, Cleared(n)) <= n
    ensures Trims(cfg, s, r, n)
  {
    assert Knows(cfg, s.g, r, s.actors[r]);
    NothingBehind(s.g, 0);
  }

  /** A shrink to n takes effect under every interleaving if and only if, as its ceiling is
      published, no more than n connections are past release's comparison: then, when it
      unlocks, no more than n are idle or on their way to a shard. */
  lemma ShrinkIsExact(cfg: Config, s: State, r: nat, n: nat)
    requires JustPublished(cfg, s, r, n)
    ensures (forall labels: seq<Label> :: AsksOnce(labels, r) && Unlocking(n, Run(cfg, s, labels).actors[r])
               ==> Settling(Run(cfg, s, labels), n) <= n)
            <==> Sum(s.actors, Cleared(n)) <= n
  {
    if Sum(s.actors, Cleared(n)) <= n {
      PublishedTrims(cfg, s, r, n);
      forall labels: seq<Label> | AsksOnce(labels, r) && Unlocking(n, Run(cfg, s, labels).actors[r])
        ensures Settling(Run(cfg, s, labels), n) <= n
      {
        RunTrims(cfg, s, r, n, labels);
      }
    } else {
      var labels := SurplusIsMissed(cfg, s, r, n);
      assert AsksOnce(labels, r) && Unlocking(n, Run(cfg, s, labels).actors[r]);
    }
  }

  /** The state SetMaxConns leaves as it returns, with nobody else in it. */
  lemma ReturnsShrunk(cfg: Config, u: State, r: nat, n: nat)
    requires Trims(cfg, u, r, n) && Unlocking(n, u.actors[r])
    requires forall i :: 0 <= i < |u.actors| && i != r ==> !Resizes(u.actors[i])
    ensures var v := Step(cfg, u, Label(r, GRANTED)); Shrunk(cfg, v, n) && Settling(v, n) <= n
  {
    var v := Step(cfg, u, Label(r, GRANTED));
    StepKeepsInv(cfg, u, Label(r, GRANTED));
    SumUpdate(u.actors, Cleared(n), r, v.actors[r]);
  }

  lemma StaysWithin(cfg: Config, v: State, n: nat, after: seq<Label>)
    requires Shrunk(cfg, v, n) && Settling(v, n) <= n && AsksNothing(after)
    ensures var t := Run(cfg, v, after);
      IdleCount(t.g) <= n && ((forall pc :: pc in t.actors ==> Slots(pc) == 0) ==> t.g.total <= n)
  {
    RunSettles(cfg, v, n, after);
    var t := Run(cfg, v, after);
    SettlingIsCounted(cfg, t, n);
    if forall pc :: pc in t.actors ==> Slots(pc) == 0 {
      SumIsZero(t.actors, Slots);
    }
  }

  /** So once the call has returned and nobody asks for another ceiling, the idle set stays
      within n for ever, and when nothing is checked out, dialled or being destroyed the
      total is within n. */
  lemma {:induction false} ShrinkConverges(cfg: Config, s: State, r: nat, n: nat, during: seq<Label>, after: seq<Label>)
    requires JustPublished(cfg, s, r, n) && Sum(s.actors, Cleared(n)) <= n
    requires AsksOnce(during, r) && Unlocking(n, Run(cfg, s, during).actors[r])
    requires forall i :: 0 <= i < |s.actors| && i != r ==> !Resizes(Run(cfg, s, during).actors[i])
    requires AsksNothing(after)
    ensures var t := Run(cfg, Step(cfg, Run(cfg, s, during), Label(r, GRANTED)), after);
      && IdleCount(t.g) <= n
      && ((forall pc :: pc in t.actors ==> Slots(pc) == 0) ==> t.g.total <= n)
  {
    PublishedTrims(cfg, s, r, n);
    RunTrims(cfg, s, r, n, during);
    var u := Run(cfg, s, during);
    ReturnsShrunk(cfg, u, r, n);
    StaysWithin(cfg, Step(cfg, u, Label(r, GRANTED)), n, after);
  }
}
