/** What trimIdle achieves: a shrink takes full effect, whatever the others do, exactly when
    few enough connections were past release's comparison as the ceiling was published. */
module PoolTrim {
  import opened Options
  import opened Sums
  import opened Partition
  import opened PoolProtocol
  import opened Striping
  import opened PoolInvariant
  import opened PoolShrink
  import opened PoolRefines
  import Permits

  // ---- the shards a trimming probe has left behind ----------------------------------

  ghost function Masked(g: Shared, start: nat, k: nat): (m: seq<seq<Conn>>)
    requires Shaped(g)
    ensures |m| == SHARDS && forall j :: 0 <= j < SHARDS ==> m[j] == if Turn(j, start) < k then g.shards[j] else []
  {
    seq(SHARDS, j requires 0 <= j < SHARDS => if Turn(j, start) < k then g.shards[j] else [])
  }

  /** Connections in the first k shards of a probe from start. */
  ghost function Behind(g: Shared, start: nat, k: nat): int
    requires Shaped(g)
  {
    Sum(Masked(g, start, k), Length)
  }

  lemma NothingBehind(g: Shared, start: nat)
    requires Shaped(g)
    ensures Behind(g, start, 0) == 0
  {
    SumIsZero(Masked(g, start, 0), Length);
  }

  lemma AllBehind(g: Shared, start: nat, k: nat)
    requires Shaped(g) && k >= SHARDS
    ensures Behind(g, start, k) == IdleCount(g)
  {
    forall j | 0 <= j < SHARDS ensures Masked(g, start, k)[j] == g.shards[j] {
      TurnIsProbed(start, j, Turn(j, start));
    }
    assert Masked(g, start, k) == g.shards;
  }

  /** An empty shard is passed without leaving anything behind. */
  lemma PassingEmpty(g: Shared, start: nat, k: nat)
    requires Shaped(g) && k < SHARDS && g.shards[ShardAt(start, k)] == []
    ensures Behind(g, start, k + 1) == Behind(g, start, k)
  {
    forall j | 0 <= j < SHARDS ensures Masked(g, start, k + 1)[j] == Masked(g, start, k)[j] {
      TurnIsProbed(start, j, k);
    }
    assert Masked(g, start, k + 1) == Masked(g, start, k);
  }

  lemma BehindAfterSet(g: Shared, start: nat, k: nat, j: nat, conns: seq<Conn>)
    requires Shaped(g) && j < SHARDS
    ensures Behind(g.(shards := g.shards[j := conns]), start, k) ==
            Behind(g, start, k) + if Turn(j, start) < k then |conns| - |g.shards[j]| else 0
  {
    var m := Masked(g, start, k);
    var h := g.(shards := g.shards[j := conns]);
    if Turn(j, start) < k {
      assert Masked(h, start, k) == m[j := conns];
      SumUpdate(m, Length, j, conns);
    } else {
      assert Masked(h, start, k) == m;
    }
  }

  lemma BehindIsShards(g: Shared, h: Shared, start: nat, k: nat)
    requires Shaped(g) && Shaped(h) && h.shards == g.shards
    ensures Behind(h, start, k) == Behind(g, start, k)
  {
    assert Masked(h, start, k) == Masked(g, start, k);
  }

  // ---- the resizer between publishing its ceiling and unlocking ----------------------

  /** The probe a trimmer is in: its start, and how many shards are behind it. */
  function TrimProbe(pc: PC): (nat, nat) {
    if pc.Probe? && pc.p.ForTrim? then (pc.start, pc.k)
    else if pc.Holding? && pc.hold.Judge? && pc.hold.p.ForTrim? then (pc.hold.start, pc.hold.k)
    else if pc.Destroying? && pc.back.ToProbe? && pc.back.p.ForTrim? then (pc.back.start, pc.back.k)
    else (0, 0)
  }

  /** Connections that this trim will not look at: behind its probe, or cleared to be
      pushed where it may have been already. */
  ghost function Missed(g: Shared, pc: PC): int
    requires Shaped(g)
  {
    Behind(g, TrimProbe(pc).0, TrimProbe(pc).1)
  }

  predicate Published(n: nat, pc: PC) {
    InCritical(pc) && Target(pc) == n && !(pc.Resizing? && pc.rz.Publish?)
  }

  predicate Unlocking(n: nat, pc: PC) { pc == Resizing(n, 0, Unlock) }

  /** Actor r has published ceiling n and is not done with it. */
  ghost predicate Trims(cfg: Config, s: State, r: nat, n: nat) {
    && Inv(cfg, s) && r < |s.actors| && s.g.maxConns == n && Published(n, s.actors[r])
    && (forall i :: 0 <= i < |s.actors| ==> WarmsBelow(n, s.actors[i]))
    && (Settling(s, n) <= n ||
        (!Unlocking(n, s.actors[r]) && Missed(s.g, s.actors[r]) + Sum(s.actors, Cleared(n)) <= n))
  }

  // ---- what the others can do to a trim ----------------------------------------------

  lemma PushMisses(g: Shared, n: nat, c: Conn, sh: nat, hold: HoldPc, ch: Choice, start: nat, k: nat)
    requires Shaped(g) && g.maxConns == n
    ensures var (g', pc') := HoldStep(g, c, sh, hold, ch);
      Behind(g', start, k) + ClearedBy(n, pc') <= Behind(g, start, k) + ClearedBy(n, Holding(c, sh, hold))
        || g'.total <= n
  {
    var g' := HoldStep(g, c, sh, hold, ch).0;
    if hold.Push? || hold.WarmPush? {
      BehindAfterSet(g, start, k, sh % SHARDS, g.shards[sh % SHARDS] + [c]);
    } else {
      BehindIsShards(g, g', start, k);
    }
  }

  lemma PopMisses(g: Shared, pc: PC, ch: Choice, start: nat, k: nat)
    requires Shaped(g) && (pc.Probe? || pc.Sweeping?)
    ensures var g' := if pc.Probe? then ProbeStep(g, pc.p, pc.start, pc.k).0 else SweepStep(g, pc.kind, pc.k, ch).0;
      Behind(g', start, k) <= Behind(g, start, k)
  {
    var g' := if pc.Probe? then ProbeStep(g, pc.p, pc.start, pc.k).0 else SweepStep(g, pc.kind, pc.k, ch).0;
    if pc.Probe? && pc.k < SHARDS && g.shards[ShardAt(pc.start, pc.k)] != [] {
      var conns := g.shards[ShardAt(pc.start, pc.k)];
      BehindAfterSet(g, start, k, ShardAt(pc.start, pc.k), conns[..|conns| - 1]);
    } else if pc.Sweeping? && pc.k < SHARDS {
      PartitionSizes(g.shards[pc.k], Chosen(pc.kind, ch));
      BehindAfterSet(g, start, k, pc.k, Kept(g.shards[pc.k], Chosen(pc.kind, ch)));
    } else {
      BehindIsShards(g, g', start, k);
    }
  }

  /** A step of anyone but the resizer: what is counted by either bound does not grow, or
      the total is within the ceiling. */
  ghost predicate Quietly(g: Shared, n: nat, pc: PC, g': Shared, pc': PC, start: nat, k: nat)
    requires Shaped(g) && Shaped(g')
  {
    && g'.maxConns == n && WarmsBelow(n, pc')
    && ((IdleCount(g') + ClearedBy(n, pc') <= IdleCount(g) + ClearedBy(n, pc)
         && Behind(g', start, k) + ClearedBy(n, pc') <= Behind(g, start, k) + ClearedBy(n, pc))
        || g'.total <= n)
  }

  lemma EnteringIsQuiet(cfg: Config, g: Shared, n: nat, me: nat, pc: PC, ch: Choice, start: nat, k: nat)
    requires Shaped(g) && g.maxConns == n && g.resizer.Some? && (pc.Idle? || (pc.Resizing? && pc.rz.Lock?))
    ensures var (g', pc') := Local(cfg, g, me, pc, ch); Shaped(g') && Quietly(g, n, pc, g', pc', start, k)
  {
    BehindIsShards(g, Local(cfg, g, me, pc, ch).0, start, k);
  }

  lemma OthersAreQuiet(cfg: Config, g: Shared, n: nat, me: nat, pc: PC, ch: Choice, start: nat, k: nat)
    requires Shaped(g) && g.maxConns == n && g.resizer.Some? && !InCritical(pc) && WarmsBelow(n, pc)
    ensures var (g', pc') := Local(cfg, g, me, pc, ch); Shaped(g') && Quietly(g, n, pc, g', pc', start, k)
  {
    LocalShaped(cfg, g, me, pc, ch);
    if pc.Idle? || pc.Resizing? {
      EnteringIsQuiet(cfg, g, n, me, pc, ch, start, k);
    } else {
      var asking := ch.(op := Acquire);
      assert Local(cfg, g, me, pc, ch) == Local(cfg, g, me, pc, asking);
      LocalSettles(cfg, g, n, me, pc, asking);
      if pc.Holding? {
        PushMisses(g, n, pc.c, pc.sh, pc.hold, ch, start, k);
      } else if pc.Probe? || pc.Sweeping? {
        PopMisses(g, pc, ch, start, k);
      } else {
        OthersKeepShards(cfg, g, me, pc, ch);
        BehindIsShards(g, Local(cfg, g, me, pc, ch).0, start, k);
      }
    }
  }

  lemma OthersKeepShards(cfg: Config, g: Shared, me: nat, pc: PC, ch: Choice)
    requires Shaped(g) && !pc.Holding? && !pc.Probe? && !pc.Sweeping?
    ensures Local(cfg, g, me, pc, ch).0.shards == g.shards
  {
  }

  lemma OtherKeepsTrimming(cfg: Config, s: State, r: nat, n: nat, l: Label)
    requires Trims(cfg, s, r, n) && l.actor != r
    ensures Trims(cfg, Step(cfg, s, l), r, n)
  {
    StepKeepsInv(cfg, s, l);
    if l.actor < |s.actors| {
      var t, pc := Step(cfg, s, l), s.actors[l.actor];
      assert Knows(cfg, s.g, r, s.actors[r]) && Knows(cfg, s.g, l.actor, pc);
      var (start, k) := TrimProbe(s.actors[r]);
      OthersAreQuiet(cfg, s.g, n, l.actor, pc, l.choice, start, k);
      SumUpdate(s.actors, Cleared(n), l.actor, t.actors[l.actor]);
      SettlingIsCounted(cfg, t, n);
    }
  }

  // ---- what the resizer does ---------------------------------------------------------

  lemma BehindIsNonNegative(g: Shared, start: nat, k: nat)
    requires Shaped(g)
    ensures Behind(g, start, k) >= 0
  {
    SumNonNegative(Masked(g, start, k), Length);
  }

  /** The resizer's own steps: it misses no more than it did, and unlocks either within the
      ceiling or having had every shard behind it. */
  ghost predicate Trimmed(g: Shared, n: nat, pc: PC, g': Shared, pc': PC)
    requires Shaped(g) && Shaped(g')
  {
    && g'.maxConns == n && Published(n, pc') && WarmsBelow(n, pc') && ClearedBy(n, pc') == 0
    && Missed(g', pc') <= Missed(g, pc) && IdleCount(g') <= IdleCount(g)
    && (Unlocking(n, pc') ==> g'.total <= n || IdleCount(g') <= Missed(g, pc))
  }

  lemma ProbeEndsTrim(g: Shared, n: nat, start: nat, k: nat)
    requires Shaped(g) && g.maxConns == n && k >= SHARDS
    ensures Trimmed(g, n, Probe(ForTrim(n), start, k), g, Resizing(n, 0, Unlock))
  {
    AllBehind(g, start, k);
    NothingBehind(g, 0);
    BehindIsNonNegative(g, start, k);
  }

  lemma ProbeTakesOne(g: Shared, n: nat, start: nat, k: nat)
    requires Shaped(g) && g.maxConns == n && k < SHARDS && g.shards[ShardAt(start, k)] != []
    ensures var (g', pc') := ProbeStep(g, ForTrim(n), start, k); Trimmed(g, n, Probe(ForTrim(n), start, k), g', pc')
  {
    var idx := ShardAt(start, k);
    var conns := g.shards[idx];
    TurnIsProbed(start, idx, k);
    BehindAfterSet(g, start, k, idx, conns[..|conns| - 1]);
    SetShard(g, idx, conns[..|conns| - 1], 0);
  }

  lemma ProbingTrims(g: Shared, n: nat, start: nat, k: nat)
    requires Shaped(g) && g.maxConns == n
    ensures var (g', pc') := ProbeStep(g, ForTrim(n), start, k); Trimmed(g, n, Probe(ForTrim(n), start, k), g', pc')
  {
    if k >= SHARDS {
      ProbeEndsTrim(g, n, start, k);
    } else if g.shards[ShardAt(start, k)] == [] {
      PassingEmpty(g, start, k);
    } else {
      ProbeTakesOne(g, n, start, k);
    }
  }

  lemma LoopingTrims(cfg: Config, g: Shared, n: nat, me: nat, delta: int, rz: ResizePc, ch: Choice)
    requires Shaped(g) && g.maxConns == n && Published(n, Resizing(n, delta, rz))
      && !rz.Unlock? && DeltaInLoop(Resizing(n, delta, rz))
    ensures var (g', pc') := ResizeStep(cfg, g, me, n, delta, rz, ch);
      Shaped(g') && Trimmed(g, n, Resizing(n, delta, rz), g', pc')
  {
    var (g', pc') := ResizeStep(cfg, g, me, n, delta, rz, ch);
    assert g'.shards == g.shards;
    NothingBehind(g, 0);
    NothingBehind(g', TrimProbe(pc').0);
  }

  lemma DestroyingTrims(g: Shared, n: nat, pc: PC, ch: Choice)
    requires Shaped(g) && g.maxConns == n && Published(n, pc) && (pc.Destroying? || pc.Holding?)
    ensures var (g', pc') :=
        if pc.Destroying? then DestroyStep(g, pc.cs, pc.why, pc.back, pc.des, ch)
        else HoldStep(g, pc.c, pc.sh, pc.hold, ch);
      Shaped(g') && Trimmed(g, n, pc, g', pc')
  {
    var (g', pc') :=
      if pc.Destroying? then DestroyStep(g, pc.cs, pc.why, pc.back, pc.des, ch)
      else HoldStep(g, pc.c, pc.sh, pc.hold, ch);
    assert g'.shards == g.shards;
    BehindIsShards(g, g', TrimProbe(pc).0, TrimProbe(pc).1);
    NothingBehind(g', 0);
    BehindIsNonNegative(g, TrimProbe(pc).0, TrimProbe(pc).1);
  }

  lemma ResizerTrims(cfg: Config, g: Shared, n: nat, me: nat, pc: PC, ch: Choice)
    requires Shaped(g) && g.maxConns == n && Published(n, pc) && !Unlocking(n, pc) && DeltaInLoop(pc)
    ensures var (g', pc') := Local(cfg, g, me, pc, ch); Shaped(g') && Trimmed(g, n, pc, g', pc')
  {
    if pc.Resizing? {
      LoopingTrims(cfg, g, n, me, pc.delta, pc.rz, ch);
    } else if pc.Probe? {
      ProbingTrims(g, n, pc.start, pc.k);
    } else {
      DestroyingTrims(g, n, pc, ch);
    }
  }

  lemma ResizerKeepsTrimming(cfg: Config, s: State, r: nat, n: nat, l: Label)
    requires Trims(cfg, s, r, n) && l.actor == r && !Unlocking(n, s.actors[r])
    ensures Trims(cfg, Step(cfg, s, l), r, n)
  {
    StepKeepsInv(cfg, s, l);
    var t, pc := Step(cfg, s, l), s.actors[r];
    assert Knows(cfg, s.g, r, pc);
    ResizerTrims(cfg, s.g, n, r, pc, l.choice);
    SumUpdate(s.actors, Cleared(n), r, t.actors[r]);
    SettlingIsCounted(cfg, t, n);
    assert ClearedBy(n, pc) == 0;
  }

  /** Actor r asks for no other ceiling meanwhile. */
  ghost predicate AsksOnce(labels: seq<Label>, r: nat) {
    forall i :: 0 <= i < |labels| && labels[i].actor == r ==> !labels[i].choice.op.SetMaxConns?
  }

  lemma HoldingStaysOut(g: Shared, c: Conn, sh: nat, hold: HoldPc, ch: Choice)
    requires Shaped(g) && !Resizes(Holding(c, sh, hold))
    ensures !Resizes(HoldStep(g, c, sh, hold, ch).1)
  {
  }

  lemma DestroyingStaysOut(g: Shared, cs: seq<Conn>, why: Option<Discard>, back: Cont, des: DestroyPc, ch: Choice)
    requires Shaped(g) && !TrimsBehind(back)
    ensures !Resizes(DestroyStep(g, cs, why, back, des, ch).1)
  {
  }

  lemma OtherStaysOut(cfg: Config, g: Shared, me: nat, pc: PC, ch: Choice)
    requires Shaped(g) && !Resizes(pc) && !pc.Holding? && !pc.Destroying? && !ch.op.SetMaxConns?
    ensures !Resizes(Local(cfg, g, me, pc, ch).1)
  {
  }

  lemma LocalStaysOut(cfg: Config, g: Shared, me: nat, pc: PC, ch: Choice)
    requires Shaped(g) && !Resizes(pc) && !ch.op.SetMaxConns?
    ensures !Resizes(Local(cfg, g, me, pc, ch).1)
  {
    match pc
    case Holding(c, sh, hold) => HoldingStaysOut(g, c, sh, hold, ch);
    case Destroying(cs, why, back, des) => DestroyingStaysOut(g, cs, why, back, des, ch);
    case _ => OtherStaysOut(cfg, g, me, pc, ch);
  }

  lemma ReturnedStaysOut(cfg: Config, s: State, r: nat, l: Label)
    requires Shaped(s.g) && r < |s.actors| && !Resizes(s.actors[r]) && (l.actor == r ==> !l.choice.op.SetMaxConns?)
    ensures !Resizes(Step(cfg, s, l).actors[r])
  {
    if l.actor == r {
      LocalStaysOut(cfg, s.g, r, s.actors[r], l.choice);
    }
  }

  lemma {:induction false} RunTrims(cfg: Config, s: State, r: nat, n: nat, labels: seq<Label>)
    requires Inv(cfg, s) && r < |s.actors| && (Trims(cfg, s, r, n) || !Resizes(s.actors[r])) && AsksOnce(labels, r)
    ensures var t := Run(cfg, s, labels); r < |t.actors| && (Trims(cfg, t, r, n) || !Resizes(t.actors[r]))
    decreases |labels|
  {
    if labels != [] {
      var l, t := labels[0], Step(cfg, s, labels[0]);
      StepKeepsInv(cfg, s, l);
      if !Resizes(s.actors[r]) {
        ReturnedStaysOut(cfg, s, r, l);
      } else if l.actor != r {
        OtherKeepsTrimming(cfg, s, r, n, l);
      } else if !Unlocking(n, s.actors[r]) {
        ResizerKeepsTrimming(cfg, s, r, n, l);
      }
      assert AsksOnce(labels[1..], r);
      RunTrims(cfg, t, r, n, labels[1..]);
    }
  }
}
