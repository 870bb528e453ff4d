/** The pool's housekeeping, undisturbed: EvictIdle, the reaper, warming up, giving up a
    dial or a wait, and Close from beginning to end. */
module PoolDuties {
  import opened Options
  import opened Sums
  import opened Partition
  import opened PoolProtocol
  import opened Striping
  import opened PoolInvariant
  import opened PoolShrink
  import opened PoolRefines
  import opened PoolTrim
  import opened PoolSettles
  import opened PoolAlone
  import opened PoolVerdicts
  import opened PoolReturns
  import Permits

  // ---- sweeps ------------------------------------------------------------------------

  /** What matches in the shards, one shard after the other. */
  function Gathered(shards: seq<seq<Conn>>, matches: Conn -> bool): seq<Conn> {
    if shards == [] then [] else Taken(shards[0], matches) + Gathered(shards[1..], matches)
  }

  function Remaining(shards: seq<seq<Conn>>, matches: Conn -> bool): seq<seq<Conn>> {
    seq(|shards|, i requires 0 <= i < |shards| => Kept(shards[i], matches))
  }

  /** The sweep takes what matches out of the shards and destroys it, and does no more. */
  ghost predicate Sweeps(g: Shared, k: nat, matches: Conn -> bool, why: Discard, h: Shared)
    requires Shaped(g) && k <= SHARDS
  {
    var shards := g.shards[..k] + Remaining(g.shards[k..], matches);
    Destroys(g.(shards := shards), Gathered(g.shards[k..], matches), why, h)
  }

  lemma OneShard(g: Shared, k: nat, matches: Conn -> bool, why: Discard, h1: Shared, h: Shared)
    requires Shaped(g) && k < SHARDS
    requires Destroys(g.(shards := g.shards[k := Kept(g.shards[k], matches)]), Taken(g.shards[k], matches), why, h1)
    requires Shaped(h1) && Sweeps(h1, k + 1, matches, why, h)
    ensures Sweeps(g, k, matches, why, h)
  {
    var rest := g.shards[k + 1..];
    assert h1.shards[k + 1..] == rest && g.shards[k..][0] == g.shards[k] && g.shards[k..][1..] == rest;
    var shards := g.shards[..k] + Remaining(g.shards[k..], matches);
    assert h1.shards[..k + 1] + Remaining(rest, matches) == shards;
    var mid := h1.(shards := shards);
    assert Destroys(g.(shards := shards), Taken(g.shards[k], matches), why, mid);
    DestroysInTurn(g.(shards := shards), Taken(g.shards[k], matches), why, mid, Gathered(rest, matches), h);
  }

  function OneShardSteps(g: Shared, kind: Sweep, k: nat, ch: Choice): nat
    requires Shaped(g) && k < SHARDS
  {
    1 + (3 * |Taken(g.shards[k], Chosen(kind, ch))| + 1)
  }

  lemma SweepsOne(cfg: Config, g: Shared, me: nat, kind: Sweep, k: nat, ch: Choice)
    requires Shaped(g) && k < SHARDS
    ensures var (h, pc) := Alone(cfg, g, me, Sweeping(kind, k), ch, OneShardSteps(g, kind, k, ch));
      var matches := Chosen(kind, ch);
      && pc == Sweeping(kind, k + 1)
      && Destroys(g.(shards := g.shards[k := Kept(g.shards[k], matches)]), Taken(g.shards[k], matches),
                  Named(SweepReason(kind), ch), h)
  {
    var taken := Taken(g.shards[k], Chosen(kind, ch));
    var g1 := g.(shards := g.shards[k := Kept(g.shards[k], Chosen(kind, ch))]);
    Stepped(cfg, g, me, Sweeping(kind, k), ch, OneShardSteps(g, kind, k, ch));
    DestroyAlone(cfg, g1, me, taken, SweepReason(kind), ToSweep(kind, k + 1), ch);
  }

  lemma {:induction false} SweepAlone(cfg: Config, g: Shared, me: nat, kind: Sweep, k: nat, ch: Choice)
    returns (steps: nat)
    requires Shaped(g) && k <= SHARDS
    ensures var (h, pc) := Alone(cfg, g, me, Sweeping(kind, k), ch, steps);
      pc == AfterSweep(kind) && Sweeps(g, k, Chosen(kind, ch), Named(SweepReason(kind), ch), h)
    decreases SHARDS - k
  {
    var matches, why := Chosen(kind, ch), Named(SweepReason(kind), ch);
    if k == SHARDS {
      Stepped(cfg, g, me, Sweeping(kind, k), ch, 1);
      assert g.shards[..k] + Remaining(g.shards[k..], matches) == g.shards;
      DestroysNothing(g, why);
      steps := 1;
    } else {
      var first := OneShardSteps(g, kind, k, ch);
      SweepsOne(cfg, g, me, kind, k, ch);
      var h1 := Alone(cfg, g, me, Sweeping(kind, k), ch, first).0;
      var rest := SweepAlone(cfg, h1, me, kind, k + 1, ch);
      AloneConcat(cfg, g, me, Sweeping(kind, k), ch, first, rest);
      steps := first + rest;
      OneShard(g, k, matches, why, h1, Alone(cfg, g, me, Sweeping(kind, k), ch, steps).0);
    }
  }

  /** Everything idle, shard by shard. */
  function Everything(shards: seq<seq<Conn>>): seq<Conn> {
    if shards == [] then [] else shards[0] + Everything(shards[1..])
  }

  function Empty(n: nat): seq<seq<Conn>> { seq(n, _ => []) }

  lemma {:induction false} AllGathered(shards: seq<seq<Conn>>, matches: Conn -> bool)
    requires forall c :: matches(c)
    ensures Gathered(shards, matches) == Everything(shards) && Remaining(shards, matches) == Empty(|shards|)
  {
    if shards != [] {
      AllTaken(shards[0], matches);
      AllGathered(shards[1..], matches);
      assert forall i :: 1 <= i < |shards| ==> Remaining(shards, matches)[i] == Remaining(shards[1..], matches)[i - 1];
    }
  }

  lemma {:induction false} SameGathered(shards: seq<seq<Conn>>, matches: Conn -> bool, other: Conn -> bool)
    requires forall c :: matches(c) == other(c)
    ensures Gathered(shards, matches) == Gathered(shards, other)
    ensures Remaining(shards, matches) == Remaining(shards, other)
  {
    forall i | 0 <= i < |shards| ensures Kept(shards[i], matches) == Kept(shards[i], other) {
      SamePartition(shards[i], matches, other);
    }
    if shards != [] {
      SamePartition(shards[0], matches, other);
      SameGathered(shards[1..], matches, other);
    }
  }

  /** A sweep that takes everything leaves every shard empty. */
  lemma SweepsAll(g: Shared, matches: Conn -> bool, why: Discard, h: Shared)
    requires Shaped(g) && Sweeps(g, 0, matches, why, h) && forall c :: matches(c)
    ensures Destroys(g.(shards := Empty(SHARDS)), Everything(g.shards), why, h)
  {
    AllGathered(g.shards, matches);
    assert g.shards[0..] == g.shards && g.shards[..0] + Empty(SHARDS) == Empty(SHARDS);
  }

  /** EvictIdle on an open pool: every idle connection is closed and counted as evicted, and
      none is left. */
  lemma EvictIdleAlone(cfg: Config, g: Shared, me: nat, ch: Choice) returns (steps: nat)
    requires Shaped(g) && !g.closed && ch.op == EvictIdle
    ensures var (h, pc) := Alone(cfg, g, me, Idle, ch, steps);
      pc == Idle && Destroys(g.(shards := Empty(SHARDS)), Everything(g.shards), Evicted, h)
  {
    var sweep := SweepAlone(cfg, g, me, Evicting, 0, ch);
    steps := sweep + 1;
    Stepped(cfg, g, me, Idle, ch, steps);
    SweepsAll(g, Chosen(Evicting, ch), Evicted, Alone(cfg, g, me, Idle, ch, steps).0);
  }

  /** When the health check is due the reaper closes exactly the idle connections found
      stale, leaves the others where they were, and goes on to warm the pool up. */
  lemma ReapAlone(cfg: Config, g: Shared, me: nat, ch: Choice) returns (steps: nat)
    requires Shaped(g) && !ch.yes
    ensures var (h, pc) := Alone(cfg, g, me, Maintaining(Select), ch, steps);
      var stale := (c: Conn) => c in ch.matches;
      && pc == Maintaining(WarmLoad)
      && Destroys(g.(shards := Remaining(g.shards, stale)), Gathered(g.shards, stale), Fault(ch), h)
  {
    var sweep := SweepAlone(cfg, g, me, Reaping, 0, ch);
    steps := sweep + 1;
    Stepped(cfg, g, me, Maintaining(Select), ch, steps);
    var stale := (c: Conn) => c in ch.matches;
    SameGathered(g.shards, Chosen(Reaping, ch), stale);
    assert g.shards[0..] == g.shards && g.shards[..0] + Remaining(g.shards, stale) == Remaining(g.shards, stale);
  }

  // ---- and in a run ------------------------------------------------------------------

  ghost predicate IsIdle(s: State, c: Conn)
    requires Shaped(s.g)
  {
    exists q :: 0 <= q < SHARDS && c in s.g.shards[q]
  }

  /** In no shard and in no caller's hands. */
  ghost predicate Nowhere(s: State, c: Conn)
    requires Shaped(s.g)
  {
    && !IsIdle(s, c)
    && forall j :: 0 <= j < |s.actors| && s.actors[j].Holding? ==> s.actors[j].c != c
  }

  lemma {:induction false} GatheredMember(shards: seq<seq<Conn>>, matches: Conn -> bool, q: nat, c: Conn)
    requires q < |shards| && c in shards[q] && matches(c)
    ensures c in Gathered(shards, matches)
  {
    if q == 0 {
      PartitionSeparates(shards[0], matches);
    } else {
      GatheredMember(shards[1..], matches, q - 1, c);
    }
  }

  lemma ClosedIsNowhere(cfg: Config, s: State, c: Conn, after: seq<Label>)
    requires Inv(cfg, s) && c in s.g.dead
    ensures Nowhere(Run(cfg, s, after), c)
  {
    RunKeepsInv(cfg, s, after);
    RunCondemns(cfg, s, after, c);
    CondemnedIsNowhere(cfg, Run(cfg, s, after), c);
  }

  /** An EvictIdle that nobody disturbs, at any moment of any run, leaves nothing idle; and
      what was idle is never pooled or handed out again. */
  lemma EvictIdleEmpties(cfg: Config, s: State, i: nat) returns (evict: seq<Label>)
    requires Inv(cfg, s) && i < |s.actors| && s.actors[i] == Idle && !s.g.closed
    ensures var t := Run(cfg, s, evict);
      && t.actors == s.actors && (forall c :: !IsIdle(t, c))
      && forall c: Conn, after: seq<Label> :: IsIdle(s, c) ==> Nowhere(Run(cfg, t, after), c)
  {
    var ch := Choice(true, 0, EvictIdle, {}, Expired);
    var steps := EvictIdleAlone(cfg, s.g, i, ch);
    evict := AloneIsRun(cfg, s, i, ch, steps);
    var t := Run(cfg, s, evict);
    assert t.actors == s.actors;
    RunKeepsInv(cfg, s, evict);
    forall c: Conn, after: seq<Label> | IsIdle(s, c) ensures Nowhere(Run(cfg, t, after), c) {
      var q :| 0 <= q < SHARDS && c in s.g.shards[q];
      AllGathered(s.g.shards, _ => true);
      GatheredMember(s.g.shards, _ => true, q, c);
      ClosedIsNowhere(cfg, t, c, after);
    }
  }

  /** A health check that nobody disturbs takes the stale connections out for good and leaves
      every other idle one idle. */
  lemma ReapIsExact(cfg: Config, s: State, stale: set<Conn>, fault: Discard) returns (reap: seq<Label>)
    requires Inv(cfg, s) && |s.actors| > 0 && s.actors[0] == Maintaining(Select)
    ensures var t := Run(cfg, s, reap);
      && (forall c :: IsIdle(t, c) <==> IsIdle(s, c) && c !in stale)
      && forall c: Conn, after: seq<Label> :: IsIdle(s, c) && c in stale ==> Nowhere(Run(cfg, t, after), c)
  {
    var ch := Choice(false, 0, Acquire, stale, fault);
    var steps := ReapAlone(cfg, s.g, 0, ch);
    reap := AloneIsRun(cfg, s, 0, ch, steps);
    var t := Run(cfg, s, reap);
    var matches := (c: Conn) => c in ch.matches;
    RunKeepsInv(cfg, s, reap);
    assert t.g.shards == Remaining(s.g.shards, matches);
    forall q | 0 <= q < SHARDS ensures forall c :: c in t.g.shards[q] <==> c in s.g.shards[q] && c !in stale {
      PartitionSeparates(s.g.shards[q], matches);
    }
    forall c: Conn, after: seq<Label> | IsIdle(s, c) && c in stale ensures Nowhere(Run(cfg, t, after), c) {
      var q :| 0 <= q < SHARDS && c in s.g.shards[q];
      GatheredMember(s.g.shards, matches, q, c);
      ClosedIsNowhere(cfg, t, c, after);
    }
  }

  // ---- warming up --------------------------------------------------------------------

  /** The maintainer takes a permit and a slot. */
  lemma WarmReserves(cfg: Config, g: Shared, me: nat)
    requires Shaped(g) && !g.closed && 0 <= g.total < cfg.minConns && g.total < g.maxConns && g.tokens > 0
    ensures Alone(cfg, g, me, Maintaining(WarmLoad), GRANTED, 6) ==
            (g.(tokens := g.tokens - 1, total := g.total + 1), Reserving(Warmer, Dial))
  {
    var taken := g.(tokens := g.tokens - 1);
    Stepped(cfg, g, me, Maintaining(WarmLoad), GRANTED, 6);
    Stepped(cfg, g, me, Maintaining(WarmClosed), GRANTED, 5);
    Stepped(cfg, g, me, Maintaining(WarmWait), GRANTED, 4);
    Stepped(cfg, taken, me, Reserving(Warmer, LoadTotal), GRANTED, 3);
    Stepped(cfg, taken, me, Reserving(Warmer, LoadMax(g.total)), GRANTED, 2);
    Stepped(cfg, taken, me, Reserving(Warmer, Swap(g.total)), GRANTED, 1);
  }

  /** It dials, pools what it dialled, and returns the permit. */
  lemma WarmDials(cfg: Config, g: Shared, me: nat)
    requires Shaped(g)
    ensures var h := g.(next := g.next + 1, shards := g.shards[0 := g.shards[0] + [g.next]]);
      Alone(cfg, g, me, Reserving(Warmer, Dial), GRANTED, 4) ==
      (With(h, Permits.Released(PermitsOf(cfg, h))), Maintaining(WarmLoad))
  {
    var dialled := g.(next := g.next + 1);
    Stepped(cfg, g, me, Reserving(Warmer, Dial), GRANTED, 4);
    Stepped(cfg, dialled, me, Holding(g.next, 0, WarmPush), GRANTED, 3);
    ReleaseAlone(cfg, Pushed(dialled, 0, g.next), me, WarmAgain, GRANTED);
  }

  function Warmed(g: Shared): Shared
    requires Shaped(g)
  {
    g.(total := g.total + 1, next := g.next + 1, shards := g.shards[0 := g.shards[0] + [g.next]])
  }

  lemma WarmedIdle(g: Shared)
    requires Shaped(g)
    ensures IdleCount(Warmed(g)) == IdleCount(g) + 1
  {
    SetShard(g, 0, g.shards[0] + [g.next], 0);
  }

  /** With a permit free and none owed, and room under the ceiling, each lap adds one. */
  lemma WarmLap(cfg: Config, g: Shared, me: nat)
    requires Shaped(g) && !g.closed && 0 <= g.total < cfg.minConns && g.total < g.maxConns
    requires g.debt == 0 && 0 < g.tokens <= cfg.maxConnsLimit
    ensures Alone(cfg, g, me, Maintaining(WarmLoad), GRANTED, 10) == (Warmed(g), Maintaining(WarmLoad))
  {
    WarmReserves(cfg, g, me);
    WarmDials(cfg, g.(tokens := g.tokens - 1, total := g.total + 1), me);
    AloneConcat(cfg, g, me, Maintaining(WarmLoad), GRANTED, 6, 4);
  }

  /** The pool is at MinConns, or where it was if that is more; what was dialled is idle, and
      nothing else has changed. */
  ghost predicate WarmedUp(cfg: Config, g: Shared, h: Shared) {
    && h == g.(total := h.total, next := h.next, shards := h.shards)
    && h.total == (if g.total < cfg.minConns then cfg.minConns else g.total)
    && h.next - g.next == h.total - g.total == IdleCount(h) - IdleCount(g)
  }

  lemma WarmedUpOn(cfg: Config, g: Shared, h: Shared)
    requires Shaped(g) && g.total < cfg.minConns && WarmedUp(cfg, Warmed(g), h)
    ensures WarmedUp(cfg, g, h)
  {
    WarmedIdle(g);
  }

  /** The maintainer, with the driver dialling, tops the pool up to MinConns and no further,
      every connection it adds is idle, and it has no permit left. */
  lemma {:induction false} WarmUpAlone(cfg: Config, g: Shared, me: nat) returns (steps: nat)
    requires Shaped(g) && !g.closed && g.total >= 0 && cfg.minConns <= g.maxConns
    requires g.debt == 0 && 0 < g.tokens <= cfg.maxConnsLimit
    ensures var (h, pc) := Alone(cfg, g, me, Maintaining(WarmLoad), GRANTED, steps);
      pc == Maintaining(Select) && WarmedUp(cfg, g, h)
    decreases cfg.minConns - g.total
  {
    if g.total >= cfg.minConns {
      Stepped(cfg, g, me, Maintaining(WarmLoad), GRANTED, 1);
      steps := 1;
    } else {
      WarmLap(cfg, g, me);
      var rest := WarmUpAlone(cfg, Warmed(g), me);
      AloneConcat(cfg, g, me, Maintaining(WarmLoad), GRANTED, 10, rest);
      WarmedUpOn(cfg, g, Alone(cfg, Warmed(g), me, Maintaining(WarmLoad), GRANTED, rest).0);
      steps := 10 + rest;
    }
  }

  /** On a closed pool it dials nothing. */
  lemma WarmUpStops(cfg: Config, g: Shared, me: nat, ch: Choice) returns (steps: nat)
    requires Shaped(g) && g.closed
    ensures Alone(cfg, g, me, Maintaining(WarmLoad), ch, steps) == (g, Maintaining(Select))
  {
    steps := if cfg.minConns > 0 && g.total < cfg.minConns then 2 else 1;
    Stepped(cfg, g, me, Maintaining(WarmLoad), ch, steps);
    Stepped(cfg, g, me, Maintaining(WarmClosed), ch, 1);
  }

  /** At the ceiling it returns its permit and leaves the rest for another round. */
  lemma WarmUpAtCeiling(cfg: Config, g: Shared, me: nat, ch: Choice)
    requires Shaped(g) && g.total >= g.maxConns
    ensures Alone(cfg, g, me, Reserving(Warmer, LoadTotal), ch, 4) ==
            (With(g, Permits.Released(PermitsOf(cfg, g))), Maintaining(Select))
  {
    Stepped(cfg, g, me, Reserving(Warmer, LoadTotal), ch, 4);
    Stepped(cfg, g, me, Reserving(Warmer, LoadMax(g.total)), ch, 3);
    ReleaseAlone(cfg, g, me, WarmStop, ch);
  }

  // ---- giving up ---------------------------------------------------------------------

  /** A dial that fails gives back its slot and its permit, and leaves nothing behind; the
      maintainer's ends its round. */
  lemma FailedDialAlone(cfg: Config, g: Shared, me: nat, w: Who)
    requires Shaped(g)
    ensures var h := g.(total := g.total - 1);
      Alone(cfg, g, me, Reserving(w, Dial), REFUSE, 4) ==
      (With(h, Permits.Released(PermitsOf(cfg, h))), if w.Caller? then Idle else Maintaining(Select))
  {
    var h := g.(total := g.total - 1);
    Stepped(cfg, g, me, Reserving(w, Dial), REFUSE, 4);
    Stepped(cfg, g, me, Reserving(w, Undial), REFUSE, 3);
    ReleaseAlone(cfg, h, me, if w.Caller? then Finish else WarmStop, REFUSE);
  }

  /** A caller with a permit that has not been served: it probes, judges what it found, or
      tries to reserve. */
  predicate Taking(pc: PC) {
    || pc.Admitted?
    || (pc.Probe? && pc.p.ForTake?)
    || (pc.Holding? && pc.hold.Judge? && pc.hold.p.ForTake?)
    || (pc.Destroying? && pc.back.ToProbe? && pc.back.p.ForTake?)
    || (pc.Reserving? && pc.w.Caller? && !pc.res.Dial? && !pc.res.Undial?)
  }

  predicate Served(pc: PC) { (pc.Holding? && pc.hold.Got?) || pc == Reserving(Caller, Dial) }

  /** It goes on until it is served, however often the pool is at its ceiling, and stops for
      nothing but a closed pool it finds as it is admitted, or a context that is over when
      it finds the ceiling; then it returns its permit. */
  lemma TakeEndsExactly(cfg: Config, g: Shared, me: nat, pc: PC, ch: Choice)
    requires Shaped(g) && Taking(pc)
    ensures var next := Local(cfg, g, me, pc, ch).1;
      var over := (pc.Admitted? && g.closed) || (pc.Reserving? && pc.res.Full? && !ch.yes);
      && (Taking(next) || Served(next) <==> !over)
      && (over ==> Alone(cfg, g, me, pc, ch, 3) == (With(g, Permits.Released(PermitsOf(cfg, g))), Idle))
  {
    var over := (pc.Admitted? && g.closed) || (pc.Reserving? && pc.res.Full? && !ch.yes);
    if over {
      Stepped(cfg, g, me, pc, ch, 3);
      ReleaseAlone(cfg, g, me, Finish, ch);
    }
  }

  /** A call on a closed pool, a ceiling out of range, a second Close and a wait given up
      leave everything as it was. */
  lemma RefusedCalls(cfg: Config, g: Shared, me: nat, ch: Choice)
    requires Shaped(g)
    ensures g.closed && !ch.op.Close? ==> Local(cfg, g, me, Idle, ch) == (g, Idle)
    ensures ch.op.SetMaxConns? && !(cfg.minConns <= ch.op.n <= cfg.maxConnsLimit) ==>
      Local(cfg, g, me, Idle, ch) == (g, Idle)
    ensures ch.op.Close? && g.closer.Some? ==> Local(cfg, g, me, Idle, ch) == (g, Idle)
    ensures !ch.yes ==> Local(cfg, g, me, Waiting, ch) == (g, Idle)
  {
  }

  // ---- Close from beginning to end -----------------------------------------------------

  lemma {:induction false} DrainAlone(cfg: Config, g: Shared, me: nat, r: nat, n: nat)
    requires Shaped(g) && r <= n && g.tokens >= n - r
    ensures Alone(cfg, g, me, Shutting(r, Drain(n)), GRANTED, n - r + 1) ==
            (g.(tokens := g.tokens - (n - r)), Sweeping(Draining(n), 0))
    decreases n - r
  {
    Stepped(cfg, g, me, Shutting(r, Drain(n)), GRANTED, n - r + 1);
    if r < n {
      DrainAlone(cfg, g.(tokens := g.tokens - 1), me, r + 1, n);
    }
  }

  /** With the maintainer gone and every permit free the closer takes them all and closes
      everything idle. */
  lemma CloserAlone(cfg: Config, g: Shared, me: nat) returns (steps: nat)
    requires Shaped(g) && g.bgDone && g.tokens >= g.maxConns
    ensures var (h, pc) := Alone(cfg, g, me, Shutting(0, AwaitBg), GRANTED, steps);
      && pc == Shutting(g.maxConns, Done)
      && Destroys(g.(tokens := g.tokens - g.maxConns, shards := Empty(SHARDS)), Everything(g.shards), ShutDown, h)
  {
    var n := g.maxConns;
    var drained := g.(tokens := g.tokens - n);
    Stepped(cfg, g, me, Shutting(0, AwaitBg), GRANTED, n + 3);
    Stepped(cfg, g, me, Shutting(0, LoadCeiling), GRANTED, n + 2);
    DrainAlone(cfg, g, me, 0, n);
    var sweep := SweepAlone(cfg, drained, me, Draining(n), 0, GRANTED);
    AloneConcat(cfg, g, me, Shutting(0, AwaitBg), GRANTED, n + 3, sweep);
    steps := n + 3 + sweep;
    var h := Alone(cfg, g, me, Shutting(0, AwaitBg), GRANTED, steps).0;
    SweepsAll(drained, Chosen(Draining(n), GRANTED), ShutDown, h);
  }

  /** The maintainer sees that it is cancelled, and retires. */
  lemma MaintainerRetires(cfg: Config, s: State)
    requires Shaped(s.g) && |s.actors| > 0 && s.actors[0] == Maintaining(Select) && s.g.cancelled
    ensures Run(cfg, s, [Label(0, GRANTED)]) == State(s.g.(bgDone := true), s.actors[0 := Maintaining(Retired)])
  {
    assert [Label(0, GRANTED)][1..] == [];
    assert Run(cfg, s, [Label(0, GRANTED)]) == Run(cfg, Step(cfg, s, Label(0, GRANTED)), []);
  }

  /** Wherever it is in its rounds, without a permit to be had: it touches nothing but its
      own mark of having gone. */
  lemma MaintainerGoes(cfg: Config, g: Shared, me: nat, mt: MaintainPc) returns (steps: nat)
    requires Shaped(g) && g.closed && g.cancelled && !mt.Retired? && (mt.WarmWait? ==> g.tokens == 0)
    ensures Alone(cfg, g, me, Maintaining(mt), GRANTED, steps) == (g.(bgDone := true), Maintaining(Retired))
  {
    var before := 0;
    if mt.WarmLoad? {
      before := WarmUpStops(cfg, g, me, GRANTED);
    } else if !mt.Select? {
      before := 1;
      Stepped(cfg, g, me, Maintaining(mt), GRANTED, 1);
    }
    Stepped(cfg, g, me, Maintaining(Select), GRANTED, 1);
    AloneConcat(cfg, g, me, Maintaining(mt), GRANTED, before, 1);
    steps := before + 1;
  }

  /** When the drain's deadline passes, Close closes everything idle and returns all the
      same, with what it had reclaimed: it does not wait for a connection that is out. */
  lemma CloseGivesUpWaiting(cfg: Config, g: Shared, me: nat, r: nat, n: nat, ch: Choice) returns (steps: nat)
    requires Shaped(g) && !ch.yes
    ensures var (h, pc) := Alone(cfg, g, me, Shutting(r, Drain(n)), ch, steps);
      pc == Shutting(r, Done) && Destroys(g.(shards := Empty(SHARDS)), Everything(g.shards), ShutDown, h)
  {
    var sweep := SweepAlone(cfg, g, me, Draining(r), 0, ch);
    steps := sweep + 1;
    Stepped(cfg, g, me, Shutting(r, Drain(n)), ch, steps);
    SweepsAll(g, Chosen(Draining(r), ch), ShutDown, Alone(cfg, g, me, Shutting(r, Drain(n)), ch, steps).0);
  }

  lemma CloseBegins(cfg: Config, s: State, i: nat) returns (labels: seq<Label>)
    requires Shaped(s.g) && i < |s.actors| && s.actors[i] == Shutting(0, SetClosed)
    ensures Run(cfg, s, labels) == State(s.g.(closed := true, cancelled := true), s.actors[i := Shutting(0, AwaitBg)])
  {
    var g := s.g.(closed := true);
    Stepped(cfg, s.g, i, Shutting(0, SetClosed), GRANTED, 2);
    Stepped(cfg, g, i, Shutting(0, Cancel), GRANTED, 1);
    labels := AloneIsRun(cfg, s, i, GRANTED, 2);
  }

  /** Close, with every permit back and the maintainer between rounds: it marks the pool
      closed, waits for the maintainer to retire, takes every permit, closes everything idle
      and returns. */
  lemma CloseAlone(cfg: Config, s: State, i: nat) returns (labels: seq<Label>)
    requires Shaped(s.g) && 0 < i < |s.actors|
    requires s.actors[i] == Shutting(0, SetClosed) && s.actors[0] == Maintaining(Select)
    requires s.g.tokens >= s.g.maxConns
    ensures var t := Run(cfg, s, labels);
      && t.actors == s.actors[0 := Maintaining(Retired)][i := Shutting(s.g.maxConns, Done)]
      && Destroys(s.g.(closed := true, cancelled := true, bgDone := true, tokens := s.g.tokens - s.g.maxConns,
                       shards := Empty(SHARDS)), Everything(s.g.shards), ShutDown, t.g)
  {
    var first := CloseBegins(cfg, s, i);
    var s1 := Run(cfg, s, first);
    var retire := [Label(0, GRANTED)];
    MaintainerRetires(cfg, s1);
    var s2 := Run(cfg, s1, retire);
    var steps := CloserAlone(cfg, s2.g, i);
    var rest := AloneIsRun(cfg, s2, i, GRANTED, steps);
    RunConcat(cfg, s, first, retire);
    RunConcat(cfg, s, first + retire, rest);
    labels := first + retire + rest;
    assert s1.actors[0 := Maintaining(Retired)][i := Shutting(s.g.maxConns, Done)] ==
      s.actors[0 := Maintaining(Retired)][i := Shutting(s.g.maxConns, Done)];
  }
}
