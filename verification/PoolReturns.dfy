/** Permits on their way back. Whoever has one, other than a closing drain, can be brought
    by steps of its own to the point where its release has looked at the debt. */
module PoolReturns {
  import opened Sums
  import opened PoolProtocol
  import opened Striping
  import opened PoolInvariant
  import opened PoolShrink

  /** A release that found no debt and is about to put its token back. */
  function Sending(pc: PC): int { if pc.Putting? && pc.put.Send? then 1 else 0 }

  /** Close is draining: what it has taken it keeps. */
  predicate Drains(pc: PC) {
    || pc.Shutting?
    || (pc.Sweeping? && pc.kind.Draining?)
    || (pc.Destroying? && pc.back.ToSweep? && pc.back.kind.Draining?)
  }

  /** A permit whose release has still to look at the debt. */
  function Looking(pc: PC): int { if Drains(pc) then 0 else PoolInvariant.Permits(pc) - Sending(pc) }

  /** Nobody has a permit to give back. */
  predicate GivenBack(pc: PC) { PoolInvariant.Permits(pc) == 0 || Drains(pc) }

  lemma LookingIsAPermit(pc: PC)
    ensures 0 <= Looking(pc) <= 1 && (Looking(pc) == 0 && Sending(pc) == 0 ==> GivenBack(pc))
  {
  }

  // ---- one holder on its own ---------------------------------------------------------

  const REFUSE: Choice := Choice(false, 0, Acquire, {}, Expired)

  /** The driver refuses to dial and a caller at the ceiling gives up; all else succeeds. */
  function Homeward(pc: PC): Choice { if pc.Reserving? then REFUSE else GRANTED }

  function DestroysLeft(cs: seq<Conn>, des: DestroyPc): nat {
    4 * |cs| + (if des.Count? then 3 else if des.Free? then 2 else 1)
  }

  function ReserveLeft(g: Shared, res: ReservePc): nat {
    match res
    case Undial => 3
    case Dial => 4
    case Full => 4
    case Swap(cur) => if cur == g.total then 5 else 8
    case LoadMax(cur) => if cur == g.total then 6 else 9
    case LoadTotal => 7
  }

  function HoldLeft(hold: HoldPc): nat {
    match hold
    case Push => 10
    case WarmPush => 10
    case Compare(_) => 16
    case LoadOwned => 17
    case Recycle => 18
    case LoadClosed => 19
    case Uncount => 20
    case CheckedOut => 21
    case Got => 22
    case Judge(_, _, _) => 23
  }

  /** A bound on the steps such an actor still needs. */
  function StepsLeft(g: Shared, pc: PC): nat {
    match pc
    case Admitted => 50
    case Probe(_, _, k) => 30 + (if k < SHARDS then SHARDS - k else 0)
    case Reserving(_, res) => ReserveLeft(g, res)
    case Holding(_, _, hold) => HoldLeft(hold)
    case Putting(_, put) => if put.PayDebt? then (if put.d == g.debt && put.d > 0 then 1 else 3) else 2
    case Destroying(cs, _, back, des) => DestroysLeft(cs, des) + if back.ToProbe? then 60 else 5
    case _ => 0
  }

  /** One step: no token moves, a unit of debt goes only with the permit that pays it, and
      the actor has looked or is nearer to it. */
  ghost predicate Nearer(g: Shared, pc: PC, g': Shared, pc': PC) {
    && g'.tokens == g.tokens && g'.limit == g.limit && g'.maxConns == g.maxConns && g'.resizer == g.resizer
    && g.debt - Looking(pc) <= g'.debt - Looking(pc')
    && PoolInvariant.Permits(pc') <= PoolInvariant.Permits(pc) && !Resizes(pc')
    && (Looking(pc') == 0 || StepsLeft(g', pc') < StepsLeft(g, pc))
  }

  lemma HoldGoesHome(g: Shared, c: Conn, sh: nat, hold: HoldPc)
    requires Shaped(g) && Looking(Holding(c, sh, hold)) > 0
    ensures var (g', pc') := HoldStep(g, c, sh, hold, GRANTED); Nearer(g, Holding(c, sh, hold), g', pc')
  {
  }

  lemma DestroyGoesHome(g: Shared, pc: PC)
    requires Shaped(g) && pc.Destroying? && Looking(pc) > 0
    ensures var (g', pc') := DestroyStep(g, pc.cs, pc.why, pc.back, pc.des, GRANTED); Nearer(g, pc, g', pc')
  {
  }

  lemma ReserveGoesHome(g: Shared, w: Who, res: ReservePc)
    ensures var (g', pc') := ReserveStep(g, w, res, REFUSE); Nearer(g, Reserving(w, res), g', pc')
  {
  }

  lemma GoesHome(cfg: Config, g: Shared, me: nat, pc: PC)
    requires Shaped(g) && Looking(pc) > 0
    ensures var (g', pc') := Local(cfg, g, me, pc, Homeward(pc)); Nearer(g, pc, g', pc')
  {
    if pc.Holding? {
      HoldGoesHome(g, pc.c, pc.sh, pc.hold);
    } else if pc.Destroying? {
      DestroyGoesHome(g, pc);
    } else if pc.Reserving? {
      ReserveGoesHome(g, pc.w, pc.res);
    }
  }

  // ---- all of them -------------------------------------------------------------------

  /** No step but actor r's own takes a permit. */
  ghost predicate NobodyTakes(cfg: Config, s: State, labels: seq<Label>, r: nat)
    requires Shaped(s.g)
    decreases |labels|
  {
    labels == [] ||
    var t := Step(cfg, s, labels[0]);
    (labels[0].actor == r || Sum(t.actors, PoolInvariant.Permits) <= Sum(s.actors, PoolInvariant.Permits))
    && NobodyTakes(cfg, t, labels[1..], r)
  }

  lemma {:induction false} NobodyTakesConcat(cfg: Config, s: State, a: seq<Label>, b: seq<Label>, r: nat)
    requires Shaped(s.g) && NobodyTakes(cfg, s, a, r) && NobodyTakes(cfg, Run(cfg, s, a), b, r)
    ensures NobodyTakes(cfg, s, a + b, r)
    decreases |a|
  {
    if a == [] {
      assert a + b == b;
    } else {
      assert (a + b)[0] == a[0] && (a + b)[1..] == a[1..] + b;
      NobodyTakesConcat(cfg, Step(cfg, s, a[0]), a[1..], b, r);
    }
  }

  /** From s to t only holders moved, and on to no resize; no token moved, and the debt
      gained on the permits still to look at it. */
  ghost predicate Homewards(s: State, t: State) {
    && |t.actors| == |s.actors| && t.g.tokens == s.g.tokens && t.g.limit == s.g.limit
    && t.g.maxConns == s.g.maxConns && t.g.resizer == s.g.resizer
    && s.g.debt - Sum(s.actors, Looking) <= t.g.debt - Sum(t.actors, Looking)
    && forall j :: 0 <= j < |s.actors| ==>
         t.actors[j] == s.actors[j] || (Looking(s.actors[j]) == 1 && !Resizes(t.actors[j]))
  }

  lemma OneStepHome(cfg: Config, s: State, i: nat)
    requires Shaped(s.g) && i < |s.actors| && Looking(s.actors[i]) > 0
    ensures var t := Step(cfg, s, Label(i, Homeward(s.actors[i])));
      && Homewards(s, t) && Sum(t.actors, PoolInvariant.Permits) <= Sum(s.actors, PoolInvariant.Permits)
      && Sum(t.actors, Looking) == Sum(s.actors, Looking) - Looking(s.actors[i]) + Looking(t.actors[i])
      && Nearer(s.g, s.actors[i], t.g, t.actors[i])
  {
    var t := Step(cfg, s, Label(i, Homeward(s.actors[i])));
    GoesHome(cfg, s.g, i, s.actors[i]);
    LookingIsAPermit(s.actors[i]);
    SumUpdate(s.actors, Looking, i, t.actors[i]);
    SumUpdate(s.actors, PoolInvariant.Permits, i, t.actors[i]);
  }

  /** First actor i, if it has still to look; then all the others. */
  lemma {:induction false} AllLookAfter(cfg: Config, s: State, i: nat, r: nat) returns (labels: seq<Label>)
    requires Shaped(s.g) && i < |s.actors|
    ensures AsksNothing(labels) && NobodyTakes(cfg, s, labels, r)
    ensures var t := Run(cfg, s, labels); Homewards(s, t) && Sum(t.actors, Looking) == 0
    decreases Sum(s.actors, Looking), if Looking(s.actors[i]) > 0 then 0 else 1, StepsLeft(s.g, s.actors[i])
  {
    forall pc | pc in s.actors ensures Looking(pc) >= 0 { LookingIsAPermit(pc); }
    SumNonNegative(s.actors, Looking);
    if Looking(s.actors[i]) > 0 {
      var l := Label(i, Homeward(s.actors[i]));
      var t := Step(cfg, s, l);
      OneStepHome(cfg, s, i);
      LookingIsAPermit(s.actors[i]);
      LookingIsAPermit(t.actors[i]);
      forall pc | pc in t.actors ensures Looking(pc) >= 0 { LookingIsAPermit(pc); }
      SumNonNegative(t.actors, Looking);
      var rest := AllLookAfter(cfg, t, i, r);
      labels := [l] + rest;
      assert labels[1..] == rest;
    } else if Sum(s.actors, Looking) > 0 {
      var j := SumPositive(s.actors, Looking);
      labels := AllLookAfter(cfg, s, j, r);
    } else {
      labels := [];
    }
  }

  /** Everyone with a permit can be brought past its look at the debt. */
  lemma AllLook(cfg: Config, s: State, r: nat) returns (labels: seq<Label>)
    requires Shaped(s.g)
    ensures AsksNothing(labels) && NobodyTakes(cfg, s, labels, r)
    ensures var t := Run(cfg, s, labels); Homewards(s, t) && Sum(t.actors, Looking) == 0
  {
    if s.actors == [] {
      labels := [];
    } else {
      labels := AllLookAfter(cfg, s, 0, r);
    }
  }
}
