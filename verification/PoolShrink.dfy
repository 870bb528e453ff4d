/** What a pool can settle at once its ceiling stands still. */
module PoolShrink {
  import opened Sums
  import opened Partition
  import opened PoolProtocol
  import opened Striping
  import opened PoolInvariant

  /** The actor holds a connection, or a dial of the maintainer's, that it will put in a
      shard without comparing the total with a ceiling of n again. */
  function ClearedBy(n: nat, pc: PC): int {
    if pc.Holding? then if pc.hold.Push? || pc.hold.WarmPush? || (pc.hold.Compare? && pc.hold.seen <= n) then 1 else 0
    else if pc.Reserving? && pc.w.Warmer? && pc.res.Dial? then 1
    else 0
  }

  function Cleared(n: nat): PC -> int { (pc: PC) => ClearedBy(n, pc) }

  /** Connections idle, or past the last test that could destroy them. */
  function Settling(s: State, n: nat): int { IdleCount(s.g) + Sum(s.actors, Cleared(n)) }

  /** No warm-up is about to act on a total it compared with an earlier ceiling. */
  predicate WarmsBelow(n: nat, pc: PC) {
    pc.Reserving? && pc.w.Warmer? && pc.res.Swap? ==> pc.res.cur < n
  }

  predicate Resizes(pc: PC) { pc.Resizing? || InCritical(pc) }

  /** The ceiling is n, nobody is in SetMaxConns, and no warm-up acts on an earlier one. */
  ghost predicate Shrunk(cfg: Config, s: State, n: nat) {
    && Inv(cfg, s) && s.g.maxConns == n
    && forall i :: 0 <= i < |s.actors| ==> !Resizes(s.actors[i]) && WarmsBelow(n, s.actors[i])
  }

  ghost predicate AsksNothing(labels: seq<Label>) {
    forall i :: 0 <= i < |labels| ==> !labels[i].choice.op.SetMaxConns?
  }

  // ---- the pool never settles above what it could have settled at -------------------

  lemma ShardShrinks(g: Shared, pc: PC, ch: Choice)
    requires Shaped(g) && (pc.Probe? || pc.Sweeping?)
    ensures var g' := if pc.Probe? then ProbeStep(g, pc.p, pc.start, pc.k).0 else SweepStep(g, pc.kind, pc.k, ch).0;
      IdleCount(g') <= IdleCount(g) && g'.maxConns == g.maxConns
  {
    if pc.Probe? && pc.k < SHARDS {
      var idx := ShardAt(pc.start, pc.k);
      if g.shards[idx] != [] {
        SetShard(g, idx, g.shards[idx][..|g.shards[idx]| - 1], 0);
      }
    }
    if pc.Sweeping? && pc.k < SHARDS {
      PartitionSizes(g.shards[pc.k], Chosen(pc.kind, ch));
      SetShard(g, pc.k, Kept(g.shards[pc.k], Chosen(pc.kind, ch)), 0);
    }
  }

  lemma HoldSettles(g: Shared, n: nat, c: Conn, sh: nat, hold: HoldPc, ch: Choice)
    requires Shaped(g) && g.maxConns == n
    ensures var (g', pc') := HoldStep(g, c, sh, hold, ch);
      && g'.maxConns == n && WarmsBelow(n, pc')
      && (IdleCount(g') + ClearedBy(n, pc') <= IdleCount(g) + ClearedBy(n, Holding(c, sh, hold)) || g'.total <= n)
  {
    if hold.Push? || hold.WarmPush? {
      SetShard(g, sh % SHARDS, g.shards[sh % SHARDS] + [c], 0);
    }
  }

  lemma ReserveSettles(g: Shared, n: nat, w: Who, res: ReservePc, ch: Choice)
    requires Shaped(g) && g.maxConns == n && WarmsBelow(n, Reserving(w, res))
    ensures var (g', pc') := ReserveStep(g, w, res, ch);
      && g'.maxConns == n && !Resizes(pc') && WarmsBelow(n, pc')
      && (IdleCount(g') + ClearedBy(n, pc') <= IdleCount(g) + ClearedBy(n, Reserving(w, res)) || g'.total <= n)
  {
    assert ReserveStep(g, w, res, ch).0.shards == g.shards;
  }

  /** The steps that touch no shard and clear nobody. */
  lemma OtherSettles(cfg: Config, g: Shared, n: nat, me: nat, pc: PC, ch: Choice)
    requires Shaped(g) && !Resizes(pc) && !ch.op.SetMaxConns?
    requires !pc.Holding? && !pc.Probe? && !pc.Sweeping? && !pc.Reserving?
    ensures var (g', pc') := Local(cfg, g, me, pc, ch);
      && g'.maxConns == g.maxConns && g'.shards == g.shards && !Resizes(pc')
      && WarmsBelow(n, pc') && ClearedBy(n, pc') == 0
  {
  }

  lemma LocalSettles(cfg: Config, g: Shared, n: nat, me: nat, pc: PC, ch: Choice)
    requires Shaped(g) && g.maxConns == n && !Resizes(pc) && WarmsBelow(n, pc) && !ch.op.SetMaxConns?
    ensures var (g', pc') := Local(cfg, g, me, pc, ch);
      && g'.maxConns == n && !Resizes(pc') && WarmsBelow(n, pc')
      && (IdleCount(g') + ClearedBy(n, pc') <= IdleCount(g) + ClearedBy(n, pc) || g'.total <= n)
  {
    if pc.Holding? {
      HoldSettles(g, n, pc.c, pc.sh, pc.hold, ch);
    } else if pc.Probe? || pc.Sweeping? {
      ShardShrinks(g, pc, ch);
    } else if pc.Reserving? {
      ReserveSettles(g, n, pc.w, pc.res, ch);
    } else {
      OtherSettles(cfg, g, n, me, pc, ch);
    }
  }

  lemma SettlingIsCounted(cfg: Config, s: State, n: nat)
    requires Inv(cfg, s)
    ensures IdleCount(s.g) <= Settling(s, n) <= s.g.total
  {
    SumNonNegative(s.actors, Cleared(n));
    SumDominated(s.actors, Cleared(n), Slots, _ => 0);
    SumIsZero(s.actors, _ => 0);
  }

  lemma StepSettles(cfg: Config, s: State, n: nat, l: Label)
    requires Shrunk(cfg, s, n) && !l.choice.op.SetMaxConns?
    ensures Shrunk(cfg, Step(cfg, s, l), n)
    ensures Settling(Step(cfg, s, l), n) <= Settling(s, n) || Settling(Step(cfg, s, l), n) <= n
  {
    StepKeepsInv(cfg, s, l);
    var t := Step(cfg, s, l);
    if l.actor < |s.actors| {
      LocalSettles(cfg, s.g, n, l.actor, s.actors[l.actor], l.choice);
      SumUpdate(s.actors, Cleared(n), l.actor, t.actors[l.actor]);
      SettlingIsCounted(cfg, t, n);
    }
  }

  lemma {:induction false} RunSettles(cfg: Config, s: State, n: nat, labels: seq<Label>)
    requires Shrunk(cfg, s, n) && AsksNothing(labels) && Settling(s, n) <= n
    ensures Shrunk(cfg, Run(cfg, s, labels), n) && Settling(Run(cfg, s, labels), n) <= n
    decreases |labels|
  {
    if labels != [] {
      assert !labels[0].choice.op.SetMaxConns?;
      StepSettles(cfg, s, n, labels[0]);
      assert AsksNothing(labels[1..]);
      RunSettles(cfg, Step(cfg, s, labels[0]), n, labels[1..]);
    }
  }

  // ---- and can settle at all of it --------------------------------------------------

  /** Steps an actor still has to take to put its connection in a shard. */
  function ToShard(n: nat): PC -> int {
    (pc: PC) => if ClearedBy(n, pc) == 0 then 0 else if pc.Reserving? || pc.hold.Compare? then 2 else 1
  }

  const GRANTED: Choice := Choice(true, 0, Acquire, {}, Expired)

  lemma ClearedPushes(cfg: Config, s: State, n: nat, i: nat)
    requires Shrunk(cfg, s, n) && i < |s.actors| && ClearedBy(n, s.actors[i]) == 1
    ensures var t := Step(cfg, s, Label(i, GRANTED));
      Shrunk(cfg, t, n) && Settling(t, n) == Settling(s, n) && Sum(t.actors, ToShard(n)) < Sum(s.actors, ToShard(n))
  {
    var pc, t := s.actors[i], Step(cfg, s, Label(i, GRANTED));
    StepSettles(cfg, s, n, Label(i, GRANTED));
    SumUpdate(s.actors, Cleared(n), i, t.actors[i]);
    SumUpdate(s.actors, ToShard(n), i, t.actors[i]);
    if pc.Holding? && !pc.hold.Compare? {
      SetShard(s.g, pc.sh % SHARDS, s.g.shards[pc.sh % SHARDS] + [pc.c], 0);
    }
  }

  lemma {:induction false} AllPush(cfg: Config, s: State, n: nat) returns (labels: seq<Label>)
    requires Shrunk(cfg, s, n)
    ensures AsksNothing(labels) && IdleCount(Run(cfg, s, labels).g) == Settling(s, n)
    decreases Sum(s.actors, ToShard(n))
  {
    if Sum(s.actors, Cleared(n)) > 0 {
      var i := SumPositive(s.actors, Cleared(n));
      ClearedPushes(cfg, s, n, i);
      SumNonNegative(s.actors, ToShard(n));
      var t := Step(cfg, s, Label(i, GRANTED));
      SumNonNegative(t.actors, ToShard(n));
      var rest := AllPush(cfg, t, n);
      labels := [Label(i, GRANTED)] + rest;
      assert labels[1..] == rest;
    } else {
      SumNonNegative(s.actors, Cleared(n));
      labels := [];
    }
  }

  /** From such a state the idle set stays within the ceiling, in every continuation, if and
      only if the connections idle or past release's comparison already are. */
  lemma ShrinkSettlesExactly(cfg: Config, s: State, n: nat)
    requires Shrunk(cfg, s, n)
    ensures (forall more: seq<Label> :: AsksNothing(more) ==> IdleCount(Run(cfg, s, more).g) <= n)
            <==> Settling(s, n) <= n
  {
    if Settling(s, n) <= n {
      forall more: seq<Label> | AsksNothing(more) ensures IdleCount(Run(cfg, s, more).g) <= n {
        RunSettles(cfg, s, n, more);
        SettlingIsCounted(cfg, Run(cfg, s, more), n);
      }
    } else {
      var more := AllPush(cfg, s, n);
      assert AsksNothing(more) && IdleCount(Run(cfg, s, more).g) > n;
    }
  }

  /** Then, once nothing is checked out, dialled or being destroyed, the total is at most
      the new ceiling. */
  lemma ReleasedIsWithinCeiling(cfg: Config, s: State, n: nat, more: seq<Label>)
    requires Shrunk(cfg, s, n) && Settling(s, n) <= n && AsksNothing(more)
    requires forall pc :: pc in Run(cfg, s, more).actors ==> Slots(pc) == 0
    ensures Run(cfg, s, more).g.total <= n
  {
    RunSettles(cfg, s, n, more);
    SettlingIsCounted(cfg, Run(cfg, s, more), n);
    SumIsZero(Run(cfg, s, more).actors, Slots);
  }
}
