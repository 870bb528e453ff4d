/** What each operation of the pool does when nobody disturbs it: the whole effect of its
    separate steps, for every answer of the driver. */
module PoolAlone {
  import opened Options
  import opened Sums
  import opened Partition
  import opened PoolProtocol
  import opened Striping
  import opened PoolInvariant
  import opened PoolRefines
  import opened PoolVerdicts
  import Permits

  /** What a connection the driver rejects is counted as. */
  function Fault(ch: Choice): Discard { if ch.reason.Expired? then Expired else Unhealthy }

  /** Connections cs have been closed, in that order, each counted under why and taken off
      the total; nothing else has changed. */
  ghost predicate Destroys(g: Shared, cs: seq<Conn>, why: Discard, g': Shared) {
    && g' == g.(dead := g.dead + cs, total := g.total - |cs|, discarded := g'.discarded)
    && |g.discarded| == |g'.discarded| == DISCARD_COUNT
    && forall w: Discard :: g'.discarded[Index(w)] == g.discarded[Index(w)] + (if w == why then |cs| else 0)
  }

  lemma DestroysInTurn(g: Shared, a: seq<Conn>, why: Discard, h: Shared, b: seq<Conn>, g': Shared)
    requires Destroys(g, a, why, h) && Destroys(h, b, why, g')
    ensures Destroys(g, a + b, why, g')
  {
    assert (g.dead + a) + b == g.dead + (a + b);
  }

  lemma DestroysNothing(g: Shared, why: Discard)
    requires Shaped(g)
    ensures Destroys(g, [], why, g)
  {
    assert g.dead + [] == g.dead;
  }

  function Named(why: Option<Discard>, ch: Choice): Discard { if why.Some? then why.value else Fault(ch) }

  /** One connection: close, count, take off the total. */
  lemma DestroyOne(cfg: Config, g: Shared, me: nat, cs: seq<Conn>, why: Option<Discard>, back: Cont, ch: Choice)
    requires Shaped(g) && cs != []
    ensures var (h, pc) := Alone(cfg, g, me, Destroying(cs, why, back, CloseConn), ch, 3);
      pc == Destroying(cs[1..], why, back, CloseConn) && Destroys(g, [cs[0]], Named(why, ch), h)
  {
    var g1 := g.(dead := g.dead + [cs[0]]);
    var r := Index(Reason(why, ch));
    var g2 := g1.(discarded := g1.discarded[r := g1.discarded[r] + 1]);
    Stepped(cfg, g, me, Destroying(cs, why, back, CloseConn), ch, 3);
    Stepped(cfg, g1, me, Destroying(cs[1..], why, back, Count), ch, 2);
    Stepped(cfg, g2, me, Destroying(cs[1..], why, back, Free), ch, 1);
  }

  lemma {:induction false} DestroyAlone(cfg: Config, g: Shared, me: nat, cs: seq<Conn>, why: Option<Discard>,
                                        back: Cont, ch: Choice)
    requires Shaped(g)
    ensures var (h, pc) := Alone(cfg, g, me, Destroying(cs, why, back, CloseConn), ch, 3 * |cs| + 1);
      pc == Resume(back) && Destroys(g, cs, Named(why, ch), h)
    decreases |cs|
  {
    var pc := Destroying(cs, why, back, CloseConn);
    if cs == [] {
      Stepped(cfg, g, me, pc, ch, 1);
      DestroysNothing(g, Named(why, ch));
    } else {
      var h := Alone(cfg, g, me, pc, ch, 3).0;
      DestroyOne(cfg, g, me, cs, why, back, ch);
      DestroyAlone(cfg, h, me, cs[1..], why, back, ch);
      AloneConcat(cfg, g, me, pc, ch, 3, 3 * |cs[1..]| + 1);
      DestroysInTurn(g, [cs[0]], Named(why, ch), h, cs[1..], Alone(cfg, g, me, pc, ch, 3 * |cs| + 1).0);
      assert [cs[0]] + cs[1..] == cs;
    }
  }

  // ---- a verdict and a release -------------------------------------------------------

  /** What a rejected connection is counted as. */
  function Why(hold: HoldPc, ch: Choice): Discard {
    if hold.LoadClosed? then ShutDown else if hold.Compare? || ch.yes then Evicted else Fault(ch)
  }

  /** Where its holder goes on. */
  function Onwards(hold: HoldPc, ch: Choice): PC {
    if !hold.Judge? then Putting(Finish, LoadDebt)
    else if ch.yes then Resizing(if hold.p.ForTrim? then hold.p.n else 0, 0, TrimTest)
    else Probe(hold.p, hold.start, hold.k)
  }

  /** A rejected connection is closed, counted once under the reason that applies, and off
      the total; and a probe goes on where it was, a trim tests again, a release returns its
      permit. */
  lemma RejectionAlone(cfg: Config, g: Shared, me: nat, c: Conn, sh: nat, hold: HoldPc, ch: Choice)
    requires Shaped(g) && Rejects(g, hold, ch)
    ensures var (h, pc) := Alone(cfg, g, me, Holding(c, sh, hold), ch, 5);
      pc == Onwards(hold, ch) && Destroys(g, [c], Why(hold, ch), h)
  {
    var pc := Local(cfg, g, me, Holding(c, sh, hold), ch).1;
    Stepped(cfg, g, me, Holding(c, sh, hold), ch, 5);
    DestroyAlone(cfg, g, me, [c], pc.why, pc.back, ch);
  }

  /** The connection comes back to an open pool, fit for the next caller, and the pool is
      within its ceiling. */
  predicate Fit(g: Shared, ch: Choice) { !g.closed && ch.yes && g.total <= g.maxConns }

  /** Why it is closed otherwise. */
  function Unfit(g: Shared, ch: Choice): Discard {
    if g.closed then ShutDown else if !ch.yes then Fault(ch) else Evicted
  }

  /** From the release of a handle to its verdict. */
  lemma ReleaseIsJudged(cfg: Config, g: Shared, me: nat, c: Conn, sh: nat, ch: Choice) returns (steps: nat)
    requires Shaped(g) && sh < SHARDS
    ensures var h := g.(checkedOut := g.checkedOut - 1);
      var (g', pc) := Alone(cfg, g, me, Holding(c, sh, Uncount), ch, steps);
      && pc == Putting(Finish, LoadDebt)
      && (if Fit(g, ch) then g' == h.(shards := h.shards[sh := h.shards[sh] + [c]])
          else Destroys(h, [c], Unfit(g, ch), g'))
  {
    var h := g.(checkedOut := g.checkedOut - 1);
    var last := if g.closed then LoadClosed else if !ch.yes then Recycle else Compare(g.total);
    var n := if g.closed then 1 else if !ch.yes then 2 else 4;
    ReachesVerdict(cfg, g, me, c, sh, ch, last, n);
    if Fit(g, ch) {
      Stepped(cfg, h, me, Holding(c, sh, last), ch, 2);
      Stepped(cfg, h, me, Holding(c, sh, Push), ch, 1);
      AloneConcat(cfg, g, me, Holding(c, sh, Uncount), ch, n, 2);
      steps := n + 2;
    } else {
      RejectionAlone(cfg, h, me, c, sh, last, ch);
      AloneConcat(cfg, g, me, Holding(c, sh, Uncount), ch, n, 5);
      steps := n + 5;
    }
  }

  lemma ReachesVerdict(cfg: Config, g: Shared, me: nat, c: Conn, sh: nat, ch: Choice, last: HoldPc, n: nat)
    requires Shaped(g)
    requires last == if g.closed then LoadClosed else if !ch.yes then Recycle else Compare(g.total)
    requires n == if g.closed then 1 else if !ch.yes then 2 else 4
    ensures Alone(cfg, g, me, Holding(c, sh, Uncount), ch, n) ==
            (g.(checkedOut := g.checkedOut - 1), Holding(c, sh, last))
  {
    var h := g.(checkedOut := g.checkedOut - 1);
    Stepped(cfg, g, me, Holding(c, sh, Uncount), ch, n);
    if !g.closed {
      Stepped(cfg, h, me, Holding(c, sh, LoadClosed), ch, n - 1);
      if ch.yes {
        Stepped(cfg, h, me, Holding(c, sh, Recycle), ch, 2);
        Stepped(cfg, h, me, Holding(c, sh, LoadOwned), ch, 1);
      }
    }
  }

  /** A whole release: the connection goes back to its shard, last in, or is closed for the
      reason that applies; and then the permit goes back as permits.release says. */
  lemma HandleReleaseAlone(cfg: Config, g: Shared, me: nat, c: Conn, sh: nat, ch: Choice)
    returns (steps: nat, h: Shared)
    requires Shaped(g) && sh < SHARDS
    ensures if Fit(g, ch) then h == g.(checkedOut := g.checkedOut - 1, shards := g.shards[sh := g.shards[sh] + [c]])
            else Destroys(g.(checkedOut := g.checkedOut - 1), [c], Unfit(g, ch), h)
    ensures Alone(cfg, g, me, Holding(c, sh, Uncount), ch, steps) ==
            (With(h, Permits.Released(PermitsOf(cfg, h))), Idle)
  {
    var n := ReleaseIsJudged(cfg, g, me, c, sh, ch);
    h := Alone(cfg, g, me, Holding(c, sh, Uncount), ch, n).0;
    ReleaseAlone(cfg, h, me, Finish, ch);
    AloneConcat(cfg, g, me, Holding(c, sh, Uncount), ch, n, 2);
    steps := n + 2;
  }

  /** The connection pushed last is the first a probe of its shard is given, and taking it
      leaves the pool as it was before the push. */
  lemma HottestFirst(g: Shared, c: Conn, sh: nat, start: nat, k: nat, p: Purpose)
    requires Shaped(g) && k < SHARDS && sh < SHARDS && ShardAt(start, k) == sh
    ensures ProbeStep(Pushed(g, sh, c), p, start, k) == (g, Holding(c, sh, Judge(p, start, k)))
  {
    var conns := g.shards[sh] + [c];
    assert conns[..|conns| - 1] == g.shards[sh];
    assert g.shards[sh := conns][sh := g.shards[sh]] == g.shards;
  }
}
