/** The pool's fine-grained permit steps, left alone, do what the permit set's whole
    operations do. */
module PoolRefines {
  import opened PoolProtocol
  import opened Striping
  import Permits

  /** One actor steps n times and nobody else moves. */
  function Alone(cfg: Config, g: Shared, me: nat, pc: PC, ch: Choice, n: nat): (r: (Shared, PC))
    requires Shaped(g)
    ensures Shaped(r.0)
    decreases n
  {
    if n == 0 then (g, pc)
    else
      LocalShaped(cfg, g, me, pc, ch);
      var (g', pc') := Local(cfg, g, me, pc, ch);
      Alone(cfg, g', me, pc', ch, n - 1)
  }

  function PermitsOf(cfg: Config, g: Shared): Permits.PermitState {
    Permits.PermitState(g.tokens, g.limit, g.debt, cfg.maxConnsLimit)
  }

  function With(g: Shared, p: Permits.PermitState): Shared { g.(tokens := p.tokens, limit := p.limit, debt := p.debt) }

  /** A release that nobody disturbs: the load of the debt, then a swap or a send. */
  lemma ReleaseAlone(cfg: Config, g: Shared, me: nat, a: AfterPut, ch: Choice)
    requires Shaped(g)
    ensures Alone(cfg, g, me, Putting(a, LoadDebt), ch, 2) ==
            (With(g, Permits.Released(PermitsOf(cfg, g))), AfterPutPc(a))
  {
    var loaded := Local(cfg, g, me, Putting(a, LoadDebt), ch);
    var done := Local(cfg, loaded.0, me, loaded.1, ch);
    assert Alone(cfg, loaded.0, me, loaded.1, ch, 1) == Alone(cfg, done.0, me, done.1, ch, 0);
  }

  /** What is left of a resize inside the permit loop: delta more to hand out or take. */
  function Handed(p: Permits.PermitState, delta: int): Permits.PermitState
    requires p.tokens <= p.capacity
  {
    if delta >= 0 then
      var repaid := Permits.Min(p.debt, delta);
      p.(debt := p.debt - repaid, tokens := Permits.Min(p.tokens + (delta - repaid), p.capacity))
    else
      var taken := Permits.Min(p.tokens, -delta);
      p.(tokens := p.tokens - taken, debt := p.debt + (-delta - taken))
  }

  lemma Stepped(cfg: Config, g: Shared, me: nat, pc: PC, ch: Choice, n: nat)
    requires Shaped(g) && n > 0
    ensures Shaped(Local(cfg, g, me, pc, ch).0)
    ensures var (g', pc') := Local(cfg, g, me, pc, ch);
      Alone(cfg, g, me, pc, ch, n) == Alone(cfg, g', me, pc', ch, n - 1)
  {
    LocalShaped(cfg, g, me, pc, ch);
  }

  /** One lap of a growing loop hands out one unit: load the debt, then a swap or a send. */
  lemma GrowLap(cfg: Config, g: Shared, me: nat, n: nat, delta: int, ch: Choice)
    requires Shaped(g) && g.tokens <= cfg.maxConnsLimit && delta > 0
    ensures Alone(cfg, g, me, Resizing(n, delta, Loop), ch, 3) ==
            (With(g, Handed(PermitsOf(cfg, g), 1)), Resizing(n, delta - 1, Loop))
  {
    var third := if g.debt == 0 then SendR else PayDebtR(g.debt);
    Stepped(cfg, g, me, Resizing(n, delta, Loop), ch, 3);
    Stepped(cfg, g, me, Resizing(n, delta, LoadDebtR), ch, 2);
    Stepped(cfg, g, me, Resizing(n, delta, third), ch, 1);
  }

  function ShrinkLapSteps(g: Shared): nat { if g.tokens > 0 then 1 else 2 }

  /** One lap of a shrinking loop takes a token, or failing that adds a unit of debt. */
  lemma ShrinkLap(cfg: Config, g: Shared, me: nat, n: nat, delta: int, ch: Choice)
    requires Shaped(g) && g.tokens <= cfg.maxConnsLimit && delta < 0
    ensures Alone(cfg, g, me, Resizing(n, delta, Loop), ch, ShrinkLapSteps(g)) ==
            (With(g, Handed(PermitsOf(cfg, g), -1)), Resizing(n, delta + 1, Loop))
  {
    Stepped(cfg, g, me, Resizing(n, delta, Loop), ch, ShrinkLapSteps(g));
    if g.tokens == 0 {
      Stepped(cfg, g, me, Resizing(n, delta, AddDebt), ch, 1);
    }
  }

  lemma {:induction false} AloneConcat(cfg: Config, g: Shared, me: nat, pc: PC, ch: Choice, n: nat, m: nat)
    requires Shaped(g)
    ensures var (h, q) := Alone(cfg, g, me, pc, ch, n); Alone(cfg, g, me, pc, ch, n + m) == Alone(cfg, h, me, q, ch, m)
    decreases n
  {
    if n > 0 {
      LocalShaped(cfg, g, me, pc, ch);
      var (g', pc') := Local(cfg, g, me, pc, ch);
      AloneConcat(cfg, g', me, pc', ch, n - 1, m);
    }
  }

  lemma HandedInTurn(p: Permits.PermitState, delta: int)
    requires p.tokens <= p.capacity && delta != 0
    ensures var one := if delta > 0 then 1 else -1;
      Handed(p, one).tokens <= p.capacity && Handed(Handed(p, one), delta - one) == Handed(p, delta)
  {
  }

  lemma {:induction false} LoopAlone(cfg: Config, g: Shared, me: nat, n: nat, delta: int, ch: Choice)
    returns (steps: nat)
    requires Shaped(g) && g.tokens <= cfg.maxConnsLimit
    ensures Alone(cfg, g, me, Resizing(n, delta, Loop), ch, steps) ==
            (With(g, Handed(PermitsOf(cfg, g), delta)), Resizing(n, 0, TrimTest))
    decreases if delta < 0 then -delta else delta
  {
    if delta == 0 {
      steps := 1;
      var s1 := Local(cfg, g, me, Resizing(n, delta, Loop), ch);
      assert Alone(cfg, s1.0, me, s1.1, ch, 0) == s1;
    } else {
      var one := if delta > 0 then 1 else -1;
      var lap := if delta > 0 then 3 else ShrinkLapSteps(g);
      if delta > 0 {
        GrowLap(cfg, g, me, n, delta, ch);
      } else {
        ShrinkLap(cfg, g, me, n, delta, ch);
      }
      HandedInTurn(PermitsOf(cfg, g), delta);
      var h := With(g, Handed(PermitsOf(cfg, g), one));
      var rest := LoopAlone(cfg, h, me, n, delta - one, ch);
      steps := lap + rest;
      AloneConcat(cfg, g, me, Resizing(n, delta, Loop), ch, lap, rest);
    }
  }

  /** A resize that nobody disturbs has, when it goes on to trim, exactly the effect of the
      whole operation. */
  lemma ResizeAlone(cfg: Config, g: Shared, me: nat, n: nat, ch: Choice) returns (steps: nat)
    requires Shaped(g) && g.tokens <= cfg.maxConnsLimit && n <= cfg.maxConnsLimit
    ensures Alone(cfg, g, me, Resizing(n, 0, SwapLimit), ch, steps) ==
            (With(g, Permits.Resized(PermitsOf(cfg, g), n)), Resizing(n, 0, TrimTest))
  {
    var h := g.(limit := n);
    var rest := LoopAlone(cfg, h, me, n, n - g.limit, ch);
    steps := 1 + rest;
    assert Local(cfg, g, me, Resizing(n, 0, SwapLimit), ch) == (h, Resizing(n, n - g.limit, Loop));
    assert With(h, Handed(PermitsOf(cfg, h), n - g.limit)) == With(g, Permits.Resized(PermitsOf(cfg, g), n));
  }
}
