/** What every step of the pool protocol keeps, for any number of actors and any
    interleaving: the conservation laws that tie the atomics to the actors' program
    counters, and what each program counter knows. */
module PoolInvariant {
  import opened Options
  import opened Sums
  import opened Partition
  import opened PoolProtocol
  import opened Striping

  // ---- what one actor accounts for --------------------------------------------------

  function PermitsBehind(back: Cont): int {
    match back
    case ToProbe(p, _, _) => if p.ForTake? then 1 else 0
    case ToPut => 1
    case ToTrim(_) => 0
    case ToSweep(kind, _) => PermitsOfSweep(kind)
  }

  function PermitsOfSweep(kind: Sweep): int {
    if kind.Draining? then kind.reclaimed else 0
  }

  /** Permits taken from the token set and not yet returned. */
  function Permits(pc: PC): int {
    match pc
    case Idle => 0
    case Waiting => 0
    case Admitted => 1
    case Probe(p, _, _) => if p.ForTake? then 1 else 0
    case Reserving(_, _) => 1
    case Holding(_, _, hold) => if hold.Judge? && hold.p.ForTrim? then 0 else 1
    case Putting(_, _) => 1
    case Destroying(_, _, back, _) => PermitsBehind(back)
    case Resizing(_, _, _) => 0
    case Sweeping(kind, _) => PermitsOfSweep(kind)
    case Maintaining(_) => 0
    case Shutting(reclaimed, _) => reclaimed
  }

  /** Units of totalConns this actor answers for. */
  function Slots(pc: PC): int {
    match pc
    case Reserving(_, res) => if res.Dial? || res.Undial? then 1 else 0
    case Holding(_, _, _) => 1
    case Destroying(cs, _, _, des) => |cs| + (if des.CloseConn? then 0 else 1)
    case _ => 0
  }

  /** Dials in flight. */
  function Dialling(pc: PC): int {
    if pc.Reserving? && pc.res.Dial? then 1 else 0
  }

  /** Open connections this actor owns. */
  function OpenConns(pc: PC): int {
    if pc.Holding? then 1 else if pc.Destroying? then |pc.cs| else 0
  }

  /** Connections the driver has closed whose discard counter has not moved yet. */
  function Uncounted(pc: PC): int {
    if pc.Destroying? && pc.des.Count? then 1 else 0
  }

  /** Handles counted in checkedOut. */
  function HandedOut(pc: PC): int {
    if pc.Holding? && (pc.hold.CheckedOut? || pc.hold.Uncount?) then 1 else 0
  }

  /** The part of a resize that has not reached the token set or the debt yet. */
  function Unfinished(pc: PC): int {
    if pc.Resizing? then -pc.delta else 0
  }

  function Length(conns: seq<Conn>): int { |conns| }

  function AsInt(n: nat): int { n }

  function IdleCount(g: Shared): int { Sum(g.shards, Length) }

  function Discarded(g: Shared): int { Sum(g.discarded, AsInt) }

  function Occurs(conns: seq<Conn>, c: Conn): nat {
    if conns == [] then 0 else (if conns[0] == c then 1 else 0) + Occurs(conns[1..], c)
  }

  /** How often connection c is in a shard. */
  function InShard(c: Conn): seq<Conn> -> int { (conns: seq<Conn>) => Occurs(conns, c) }

  /** How often an actor owns connection c. */
  function Owns(c: Conn): PC -> int {
    (pc: PC) => if pc.Holding? && pc.c == c then 1 else if pc.Destroying? then Occurs(pc.cs, c) else 0
  }

  lemma {:induction false} OccursAppend(xs: seq<Conn>, ys: seq<Conn>, c: Conn)
    ensures Occurs(xs + ys, c) == Occurs(xs, c) + Occurs(ys, c)
  {
    if xs == [] {
      assert xs + ys == ys;
    } else {
      OccursAppend(xs[1..], ys, c);
      assert (xs + ys)[1..] == xs[1..] + ys;
    }
  }

  lemma {:induction false} OccursPartition(xs: seq<Conn>, matches: Conn -> bool, c: Conn)
    ensures Occurs(Kept(xs, matches), c) + Occurs(Taken(xs, matches), c) == Occurs(xs, c)
  {
    if xs != [] {
      OccursPartition(xs[1..], matches, c);
      var k, t := if matches(xs[0]) then [] else [xs[0]], if matches(xs[0]) then [xs[0]] else [];
      OccursAppend(k, Kept(xs[1..], matches), c);
      OccursAppend(t, Taken(xs[1..], matches), c);
    }
  }

  // ---- the conservation laws --------------------------------------------------------

  /** totalConns is exact: one unit for each idle connection and each actor's slots. */
  ghost predicate SlotLaw(s: State) {
    s.g.total == IdleCount(s.g) + Sum(s.actors, Slots)
  }

  /** tokens + held - debt is the limit, adjusted by the unfinished part of a resize. */
  ghost predicate PermitLaw(s: State) {
    s.g.tokens + Sum(s.actors, Permits) - s.g.debt == s.g.limit + Sum(s.actors, Unfinished)
  }

  /** Every closed connection is in exactly one discard counter. */
  ghost predicate DiscardLaw(s: State) {
    |s.g.dead| == Discarded(s.g) + Sum(s.actors, Uncounted)
  }

  ghost predicate CheckedOutLaw(s: State) {
    s.g.checkedOut == Sum(s.actors, HandedOut)
  }

  function Places(s: State, c: Conn): int {
    Sum(s.g.shards, InShard(c)) + Sum(s.actors, Owns(c)) + Occurs(s.g.dead, c)
  }

  /** Every dialled connection is in exactly one place, and nothing else is anywhere. */
  ghost predicate OwnershipLaw(s: State) {
    forall c: Conn :: Places(s, c) == if c < s.g.next then 1 else 0
  }

  // ---- one step changes both sides alike --------------------------------------------

  ghost predicate PermitsBalanced(g: Shared, pc: PC, g': Shared, pc': PC) {
    g'.tokens + Permits(pc') - g'.debt - g'.limit - Unfinished(pc')
    == g.tokens + Permits(pc) - g.debt - g.limit - Unfinished(pc)
  }

  ghost predicate ConnsBalanced(g: Shared, pc: PC, g': Shared, pc': PC) {
    && g'.total - IdleCount(g') - Slots(pc') == g.total - IdleCount(g) - Slots(pc)
    && |g'.dead| - Discarded(g') - Uncounted(pc') == |g.dead| - Discarded(g) - Uncounted(pc)
    && g'.checkedOut - HandedOut(pc') == g.checkedOut - HandedOut(pc)
  }

  ghost predicate Balanced(g: Shared, pc: PC, g': Shared, pc': PC) {
    PermitsBalanced(g, pc, g', pc') && ConnsBalanced(g, pc, g', pc')
  }

  ghost predicate Moves(g: Shared, pc: PC, g': Shared, pc': PC, c: Conn) {
    && g.next <= g'.next <= g.next + 1
    && Sum(g'.shards, InShard(c)) + Owns(c)(pc') + Occurs(g'.dead, c)
       == Sum(g.shards, InShard(c)) + Owns(c)(pc) + Occurs(g.dead, c) + (if g.next <= c < g'.next then 1 else 0)
  }

  /** The condition under which a send on the token channel is not dropped. */
  ghost predicate RoomToSend(cfg: Config, g: Shared, pc: PC) {
    (pc.Putting? && pc.put.Send?) || (pc.Resizing? && pc.rz.SendR?) ==> g.tokens < cfg.maxConnsLimit
  }

  /** A resize step outside the permit loop has nothing left to hand out. */
  ghost predicate DeltaInLoop(pc: PC) {
    pc.Resizing? && (pc.rz.Lock? || pc.rz.Publish? || pc.rz.SwapLimit? || pc.rz.TrimTest? || pc.rz.Unlock?) ==>
      pc.delta == 0
  }

  lemma SetShard(g: Shared, j: nat, conns: seq<Conn>, c: Conn)
    requires Shaped(g) && j < SHARDS
    ensures var shards' := g.shards[j := conns];
            && Sum(shards', Length) == IdleCount(g) - |g.shards[j]| + |conns|
            && Sum(shards', InShard(c)) == Sum(g.shards, InShard(c)) - Occurs(g.shards[j], c) + Occurs(conns, c)
  {
    SumUpdate(g.shards, Length, j, conns);
    SumUpdate(g.shards, InShard(c), j, conns);
  }

  lemma ProbeBalances(g: Shared, p: Purpose, start: nat, k: nat)
    requires Shaped(g)
    ensures var (g', pc') := ProbeStep(g, p, start, k); Balanced(g, Probe(p, start, k), g', pc')
  {
    var conns := g.shards[ShardAt(start, k)];
    if k < SHARDS && conns != [] {
      SetShard(g, ShardAt(start, k), conns[..|conns| - 1], 0);
    }
  }

  lemma ProbeMoves(g: Shared, p: Purpose, start: nat, k: nat, c: Conn)
    requires Shaped(g)
    ensures var (g', pc') := ProbeStep(g, p, start, k); Moves(g, Probe(p, start, k), g', pc', c)
  {
    var conns := g.shards[ShardAt(start, k)];
    if k < SHARDS && conns != [] {
      var rest, last := conns[..|conns| - 1], conns[|conns| - 1];
      SetShard(g, ShardAt(start, k), rest, c);
      OccursAppend(rest, [last], c);
      assert conns == rest + [last];
    }
  }

  lemma PushBalances(g: Shared, sh: nat, h: Conn, c: Conn)
    requires Shaped(g)
    ensures IdleCount(Pushed(g, sh, h)) == IdleCount(g) + 1
    ensures Sum(Pushed(g, sh, h).shards, InShard(c)) == Sum(g.shards, InShard(c)) + (if h == c then 1 else 0)
  {
    var j := sh % SHARDS;
    SetShard(g, j, g.shards[j] + [h], c);
    OccursAppend(g.shards[j], [h], c);
  }

  lemma HoldBalancesPermits(g: Shared, h: Conn, sh: nat, hold: HoldPc, ch: Choice)
    requires Shaped(g)
    ensures var (g', pc') := HoldStep(g, h, sh, hold, ch); PermitsBalanced(g, Holding(h, sh, hold), g', pc')
  {
    PushBalances(g, sh, h, h);
  }

  lemma HoldBalancesConns(g: Shared, h: Conn, sh: nat, hold: HoldPc, ch: Choice)
    requires Shaped(g)
    ensures var (g', pc') := HoldStep(g, h, sh, hold, ch); ConnsBalanced(g, Holding(h, sh, hold), g', pc')
  {
    PushBalances(g, sh, h, h);
  }

  lemma HoldMoves(g: Shared, h: Conn, sh: nat, hold: HoldPc, ch: Choice, c: Conn)
    requires Shaped(g)
    ensures var (g', pc') := HoldStep(g, h, sh, hold, ch); Moves(g, Holding(h, sh, hold), g', pc', c)
  {
    PushBalances(g, sh, h, c);
    assert [h][1..] == [];
    assert Occurs([h], c) == if h == c then 1 else 0;
  }

  lemma ClosingBalances(g: Shared, cs: seq<Conn>, why: Option<Discard>, back: Cont, ch: Choice)
    requires Shaped(g)
    ensures var pc := Destroying(cs, why, back, CloseConn);
      var (g', pc') := DestroyStep(g, cs, why, back, CloseConn, ch);
            Balanced(g, pc, g', pc')
  {
  }

  lemma CountingBalances(g: Shared, cs: seq<Conn>, why: Option<Discard>, back: Cont, des: DestroyPc, ch: Choice)
    requires Shaped(g) && !des.CloseConn?
    ensures var pc := Destroying(cs, why, back, des); var (g', pc') := DestroyStep(g, cs, why, back, des, ch);
            Balanced(g, pc, g', pc')
  {
    if des.Count? {
      var r := Index(Reason(why, ch));
      SumUpdate(g.discarded, AsInt, r, g.discarded[r] + 1);
    }
  }

  lemma DestroyMoves(g: Shared, cs: seq<Conn>, why: Option<Discard>, back: Cont, des: DestroyPc, ch: Choice, c: Conn)
    requires Shaped(g)
    ensures var pc := Destroying(cs, why, back, des); var (g', pc') := DestroyStep(g, cs, why, back, des, ch);
            Moves(g, pc, g', pc', c)
  {
    if des.CloseConn? && cs != [] {
      OccursAppend(g.dead, [cs[0]], c);
    }
  }

  lemma SweepBalances(g: Shared, kind: Sweep, k: nat, ch: Choice)
    requires Shaped(g)
    ensures var (g', pc') := SweepStep(g, kind, k, ch); Balanced(g, Sweeping(kind, k), g', pc')
  {
    if k < SHARDS {
      var chosen := Chosen(kind, ch);
      PartitionSizes(g.shards[k], chosen);
      SetShard(g, k, Kept(g.shards[k], chosen), 0);
    }
  }

  lemma SweepMoves(g: Shared, kind: Sweep, k: nat, ch: Choice, c: Conn)
    requires Shaped(g)
    ensures var (g', pc') := SweepStep(g, kind, k, ch); Moves(g, Sweeping(kind, k), g', pc', c)
  {
    if k < SHARDS {
      var chosen := Chosen(kind, ch);
      OccursPartition(g.shards[k], chosen, c);
      SetShard(g, k, Kept(g.shards[k], chosen), c);
    }
  }

  lemma ResizeBalancesPermits(cfg: Config, g: Shared, me: nat, n: nat, delta: int, rz: ResizePc, ch: Choice)
    requires Shaped(g) && RoomToSend(cfg, g, Resizing(n, delta, rz)) && DeltaInLoop(Resizing(n, delta, rz))
    ensures var pc := Resizing(n, delta, rz); var (g', pc') := ResizeStep(cfg, g, me, n, delta, rz, ch);
            PermitsBalanced(g, pc, g', pc')
  {
    var g' := ResizeStep(cfg, g, me, n, delta, rz, ch).0;
    assert g'.shards == g.shards && g'.dead == g.dead && g'.discarded == g.discarded;
  }

  lemma ResizeBalancesConns(cfg: Config, g: Shared, me: nat, n: nat, delta: int, rz: ResizePc, ch: Choice)
    requires Shaped(g) && RoomToSend(cfg, g, Resizing(n, delta, rz)) && DeltaInLoop(Resizing(n, delta, rz))
    ensures var pc := Resizing(n, delta, rz); var (g', pc') := ResizeStep(cfg, g, me, n, delta, rz, ch);
            ConnsBalanced(g, pc, g', pc')
  {
    var g' := ResizeStep(cfg, g, me, n, delta, rz, ch).0;
    assert g'.shards == g.shards && g'.dead == g.dead && g'.discarded == g.discarded;
  }

  lemma ResizeMoves(cfg: Config, g: Shared, me: nat, n: nat, delta: int, rz: ResizePc, ch: Choice, c: Conn)
    requires Shaped(g) && RoomToSend(cfg, g, Resizing(n, delta, rz)) && DeltaInLoop(Resizing(n, delta, rz))
    ensures var pc := Resizing(n, delta, rz); var (g', pc') := ResizeStep(cfg, g, me, n, delta, rz, ch);
            Moves(g, pc, g', pc', c)
  {
  }

  lemma EnterBalances(cfg: Config, g: Shared, me: nat, pc: PC, ch: Choice)
    requires Shaped(g) && (pc.Idle? || pc.Waiting? || pc.Admitted?)
    ensures var (g', pc') := Local(cfg, g, me, pc, ch); Balanced(g, pc, g', pc')
  {
  }

  lemma EnterMoves(cfg: Config, g: Shared, me: nat, pc: PC, ch: Choice, c: Conn)
    requires Shaped(g) && (pc.Idle? || pc.Waiting? || pc.Admitted?)
    ensures var (g', pc') := Local(cfg, g, me, pc, ch); Moves(g, pc, g', pc', c)
  {
  }

  lemma PutBalances(cfg: Config, g: Shared, a: AfterPut, put: PutPc)
    requires RoomToSend(cfg, g, Putting(a, put))
    ensures var (g', pc') := PutStep(cfg, g, a, put);
            Balanced(g, Putting(a, put), g', pc')
  {
  }

  lemma PutMoves(cfg: Config, g: Shared, a: AfterPut, put: PutPc, c: Conn)
    requires RoomToSend(cfg, g, Putting(a, put))
    ensures var (g', pc') := PutStep(cfg, g, a, put);
            Moves(g, Putting(a, put), g', pc', c)
  {
  }

  lemma MaintainBalances(cfg: Config, g: Shared, mt: MaintainPc, ch: Choice, c: Conn)
    ensures var (g', pc') := MaintainStep(cfg, g, mt, ch);
            Balanced(g, Maintaining(mt), g', pc') && Moves(g, Maintaining(mt), g', pc', c)
  {
  }

  lemma ShutBalances(g: Shared, r: nat, cl: ClosePc, ch: Choice, c: Conn)
    ensures var (g', pc') := ShutStep(g, r, cl, ch);
            Balanced(g, Shutting(r, cl), g', pc') && Moves(g, Shutting(r, cl), g', pc', c)
  {
  }

  lemma ReserveBalancesPermits(g: Shared, w: Who, res: ReservePc, ch: Choice)
    ensures var (g', pc') := ReserveStep(g, w, res, ch);
            PermitsBalanced(g, Reserving(w, res), g', pc')
  {
  }

  lemma ReserveBalancesConns(g: Shared, w: Who, res: ReservePc, ch: Choice)
    ensures var (g', pc') := ReserveStep(g, w, res, ch);
            ConnsBalanced(g, Reserving(w, res), g', pc')
  {
  }

  lemma ReserveMoves(g: Shared, w: Who, res: ReservePc, ch: Choice, c: Conn)
    ensures var (g', pc') := ReserveStep(g, w, res, ch);
            Moves(g, Reserving(w, res), g', pc', c)
  {
  }

  lemma LocalBalances(cfg: Config, g: Shared, me: nat, pc: PC, ch: Choice, c: Conn)
    requires Shaped(g) && RoomToSend(cfg, g, pc) && DeltaInLoop(pc)
    ensures var (g', pc') := Local(cfg, g, me, pc, ch); Balanced(g, pc, g', pc') && Moves(g, pc, g', pc', c)
  {
    if pc.Probe? {
      ProbeBalances(g, pc.p, pc.start, pc.k);
      ProbeMoves(g, pc.p, pc.start, pc.k, c);
    } else if pc.Reserving? {
      ReserveBalancesPermits(g, pc.w, pc.res, ch);
      ReserveBalancesConns(g, pc.w, pc.res, ch);
      ReserveMoves(g, pc.w, pc.res, ch, c);
    } else if pc.Holding? {
      HoldBalancesPermits(g, pc.c, pc.sh, pc.hold, ch);
      HoldBalancesConns(g, pc.c, pc.sh, pc.hold, ch);
      HoldMoves(g, pc.c, pc.sh, pc.hold, ch, c);
    } else if pc.Destroying? {
      if pc.des.CloseConn? {
        ClosingBalances(g, pc.cs, pc.why, pc.back, ch);
      } else {
        CountingBalances(g, pc.cs, pc.why, pc.back, pc.des, ch);
      }
      DestroyMoves(g, pc.cs, pc.why, pc.back, pc.des, ch, c);
    } else if pc.Resizing? {
      ResizeBalancesPermits(cfg, g, me, pc.n, pc.delta, pc.rz, ch);
      ResizeBalancesConns(cfg, g, me, pc.n, pc.delta, pc.rz, ch);
      ResizeMoves(cfg, g, me, pc.n, pc.delta, pc.rz, ch, c);
    } else if pc.Sweeping? {
      SweepBalances(g, pc.kind, pc.k, ch);
      SweepMoves(g, pc.kind, pc.k, ch, c);
    } else if pc.Putting? {
      PutBalances(cfg, g, pc.a, pc.put);
      PutMoves(cfg, g, pc.a, pc.put, c);
    } else if pc.Maintaining? {
      MaintainBalances(cfg, g, pc.mt, ch, c);
    } else if pc.Shutting? {
      ShutBalances(g, pc.reclaimed, pc.cl, ch, c);
    } else {
      EnterBalances(cfg, g, me, pc, ch);
      EnterMoves(cfg, g, me, pc, ch, c);
    }
  }

  // ---- what each program counter knows ----------------------------------------------

  predicate TrimsBehind(back: Cont) {
    back.ToTrim? || (back.ToProbe? && back.p.ForTrim?)
  }

  function CeilingBehind(back: Cont): nat
    requires TrimsBehind(back)
  {
    if back.ToTrim? then back.n else back.p.n
  }

  /** The actor is inside SetMaxConns' critical section. */
  predicate InCritical(pc: PC) {
    || (pc.Resizing? && !pc.rz.Lock?)
    || (pc.Probe? && pc.p.ForTrim?)
    || (pc.Holding? && pc.hold.Judge? && pc.hold.p.ForTrim?)
    || (pc.Destroying? && TrimsBehind(pc.back))
  }

  /** The ceiling the resizer was asked for. */
  function Target(pc: PC): nat
    requires InCritical(pc)
  {
    if pc.Resizing? then pc.n
    else if pc.Probe? then pc.p.n
    else if pc.Holding? then pc.hold.p.n
    else CeilingBehind(pc.back)
  }

  /** The actor is the maintainer, before it returns. */
  predicate InMaintenance(pc: PC) {
    || (pc.Maintaining? && !pc.mt.Retired?)
    || (pc.Reserving? && pc.w.Warmer?)
    || (pc.Holding? && pc.hold.WarmPush?)
    || (pc.Putting? && !pc.a.Finish?)
    || (pc.Sweeping? && pc.kind.Reaping?)
    || (pc.Destroying? && pc.back.ToSweep? && pc.back.kind.Reaping?)
  }

  /** The actor is the closer, past its drain. */
  predicate InFinalSweep(pc: PC) {
    || (pc.Sweeping? && pc.kind.Draining?)
    || (pc.Destroying? && pc.back.ToSweep? && pc.back.kind.Draining?)
    || (pc.Shutting? && pc.cl.Done?)
  }

  predicate InClosing(pc: PC) {
    pc.Shutting? || InFinalSweep(pc)
  }

  /** SetMaxConns publishes the ceiling, then the permit limit, and both stay put until
      it unlocks. */
  ghost predicate ResizerKnows(cfg: Config, g: Shared, me: nat, pc: PC) {
    && DeltaInLoop(pc)
    && (pc.Resizing? ==>
         && pc.n <= cfg.maxConnsLimit
         && (pc.rz.LoadDebtR? || pc.rz.PayDebtR? || pc.rz.SendR? ==> pc.delta > 0)
         && (pc.rz.AddDebt? ==> pc.delta < 0)
         && (pc.rz.SendR? ==> g.debt == 0))
    && (InCritical(pc) ==>
         && g.resizer == Some(me)
         && Target(pc) <= cfg.maxConnsLimit
         && (if pc.Resizing? && pc.rz.Publish? then g.limit == g.maxConns else g.maxConns == Target(pc))
         && ((pc.Resizing? && (pc.rz.Publish? || pc.rz.SwapLimit?)) || g.limit == Target(pc)))
  }

  ghost predicate ReserverKnows(cfg: Config, pc: PC) {
    pc.Reserving? && pc.res.Swap? ==> pc.res.cur < cfg.maxConnsLimit
  }

  /** Outside a sweep, destroy is given one connection. */
  ghost predicate OneAtATime(pc: PC) {
    pc.Destroying? && !pc.back.ToSweep? ==> Slots(pc) <= 1
  }

  /** Only actor 0 maintains, and not after it has said it is done. */
  ghost predicate MaintainerKnows(g: Shared, me: nat, pc: PC) {
    InMaintenance(pc) ==> me == 0 && !g.bgDone
  }

  /** Only the actor that won closeOnce closes, and it drains only once the maintainer
      has returned. */
  ghost predicate CloserKnows(g: Shared, me: nat, pc: PC) {
    && (InClosing(pc) ==> g.closer == Some(me))
    && (pc.Shutting? && !pc.cl.SetClosed? ==> g.closed)
    && (pc.Shutting? && (pc.cl.LoadCeiling? || pc.cl.Drain?) ==> g.bgDone)
    && (InFinalSweep(pc) ==> g.closed && g.bgDone)
  }

  ghost predicate Knows(cfg: Config, g: Shared, me: nat, pc: PC) {
    && ResizerKnows(cfg, g, me, pc)
    && ReserverKnows(cfg, pc)
    && OneAtATime(pc)
    && MaintainerKnows(g, me, pc)
    && CloserKnows(g, me, pc)
  }

  /** What a step of one actor may change under the others' feet. */
  ghost predicate Undisturbed(g: Shared, g': Shared, me: nat) {
    && (g.closed ==> g'.closed)
    && (g.bgDone ==> g'.bgDone)
    && (g.closer.Some? ==> g'.closer == g.closer)
    && (g'.bgDone != g.bgDone ==> me == 0)
    && (g.resizer.Some? && g.resizer != Some(me) ==>
         g'.resizer == g.resizer && g'.maxConns == g.maxConns && g'.limit == g.limit && g'.debt <= g.debt)
  }

  lemma KnowsSurvives(cfg: Config, g: Shared, g': Shared, me: nat, other: nat, pc: PC)
    requires Knows(cfg, g, other, pc) && Undisturbed(g, g', me) && me != other
    ensures Knows(cfg, g', other, pc)
  {
  }

  /** The two published ceilings agree whenever nobody is between them. */
  ghost predicate Ceilings(cfg: Config, g: Shared) {
    && g.limit <= cfg.maxConnsLimit && g.maxConns <= cfg.maxConnsLimit && g.total <= cfg.maxConnsLimit
    && (g.resizer.None? ==> g.limit == g.maxConns)
  }

  ghost predicate KnowsCeilings(cfg: Config, g: Shared, me: nat, g': Shared, pc': PC) {
    ResizerKnows(cfg, g', me, pc') && ReserverKnows(cfg, pc') && Ceilings(cfg, g') && Undisturbed(g, g', me)
  }

  lemma ResizeKnows(cfg: Config, g: Shared, me: nat, n: nat, delta: int, rz: ResizePc, ch: Choice)
    requires ResizerKnows(cfg, g, me, Resizing(n, delta, rz)) && Ceilings(cfg, g)
    ensures var (g', pc') := ResizeStep(cfg, g, me, n, delta, rz, ch);
            KnowsCeilings(cfg, g, me, g', pc')
  {
  }

  lemma ProbeKnows(cfg: Config, g: Shared, me: nat, p: Purpose, start: nat, k: nat)
    requires Shaped(g) && ResizerKnows(cfg, g, me, Probe(p, start, k)) && Ceilings(cfg, g)
    ensures var (g', pc') := ProbeStep(g, p, start, k);
            KnowsCeilings(cfg, g, me, g', pc')
  {
  }

  lemma HoldKnows(cfg: Config, g: Shared, me: nat, c: Conn, sh: nat, hold: HoldPc, ch: Choice)
    requires Shaped(g) && ResizerKnows(cfg, g, me, Holding(c, sh, hold)) && Ceilings(cfg, g)
    ensures var (g', pc') := HoldStep(g, c, sh, hold, ch);
            KnowsCeilings(cfg, g, me, g', pc')
  {
  }

  lemma DestroyKnows(cfg: Config, g: Shared, me: nat, cs: seq<Conn>,
                     why: Option<Discard>, back: Cont, des: DestroyPc, ch: Choice)
    requires Shaped(g) && ResizerKnows(cfg, g, me, Destroying(cs, why, back, des)) && Ceilings(cfg, g)
    ensures var (g', pc') := DestroyStep(g, cs, why, back, des, ch);
            KnowsCeilings(cfg, g, me, g', pc')
  {
  }

  lemma ReserveKnows(cfg: Config, g: Shared, me: nat, w: Who, res: ReservePc, ch: Choice)
    requires ReserverKnows(cfg, Reserving(w, res)) && Ceilings(cfg, g)
    ensures var (g', pc') := ReserveStep(g, w, res, ch);
            KnowsCeilings(cfg, g, me, g', pc')
  {
  }

  lemma SweepKnows(cfg: Config, g: Shared, me: nat, kind: Sweep, k: nat, ch: Choice)
    requires Shaped(g) && Ceilings(cfg, g)
    ensures var (g', pc') := SweepStep(g, kind, k, ch);
            KnowsCeilings(cfg, g, me, g', pc')
  {
  }

  /** The steps of an actor that is in no critical section, reserving nothing. */
  lemma IdlingKnows(cfg: Config, g: Shared, me: nat, pc: PC, ch: Choice)
    requires Shaped(g) && Ceilings(cfg, g) && (pc.Idle? || pc.Waiting? || pc.Admitted? || pc.Putting?)
    ensures var (g', pc') := Local(cfg, g, me, pc, ch); KnowsCeilings(cfg, g, me, g', pc')
  {
  }

  lemma BackgroundKnows(cfg: Config, g: Shared, me: nat, pc: PC, ch: Choice)
    requires Shaped(g) && Knows(cfg, g, me, pc) && Ceilings(cfg, g) && (pc.Maintaining? || pc.Shutting?)
    ensures var (g', pc') := Local(cfg, g, me, pc, ch); KnowsCeilings(cfg, g, me, g', pc')
  {
  }

  lemma LocalKnowsCeilings(cfg: Config, g: Shared, me: nat, pc: PC, ch: Choice)
    requires Shaped(g) && Knows(cfg, g, me, pc) && Ceilings(cfg, g)
    ensures var (g', pc') := Local(cfg, g, me, pc, ch); KnowsCeilings(cfg, g, me, g', pc')
  {
    match pc
    case Resizing(n, delta, rz) => ResizeKnows(cfg, g, me, n, delta, rz, ch);
    case Reserving(w, res) => ReserveKnows(cfg, g, me, w, res, ch);
    case Probe(p, start, k) => ProbeKnows(cfg, g, me, p, start, k);
    case Holding(c, sh, hold) => HoldKnows(cfg, g, me, c, sh, hold, ch);
    case Destroying(cs, why, back, des) => DestroyKnows(cfg, g, me, cs, why, back, des, ch);
    case Sweeping(kind, k) => SweepKnows(cfg, g, me, kind, k, ch);
    case Maintaining(_) => BackgroundKnows(cfg, g, me, pc, ch);
    case Shutting(_, _) => BackgroundKnows(cfg, g, me, pc, ch);
    case _ => IdlingKnows(cfg, g, me, pc, ch);
  }

  lemma LocalOneAtATime(cfg: Config, g: Shared, me: nat, pc: PC, ch: Choice)
    requires Shaped(g) && OneAtATime(pc)
    ensures OneAtATime(Local(cfg, g, me, pc, ch).1)
  {
  }

  lemma LocalMaintains(cfg: Config, g: Shared, me: nat, pc: PC, ch: Choice)
    requires Shaped(g) && MaintainerKnows(g, me, pc)
    ensures var (g', pc') := Local(cfg, g, me, pc, ch); MaintainerKnows(g', me, pc')
  {
  }

  lemma LocalCloses(cfg: Config, g: Shared, me: nat, pc: PC, ch: Choice)
    requires Shaped(g) && CloserKnows(g, me, pc)
    ensures var (g', pc') := Local(cfg, g, me, pc, ch); CloserKnows(g', me, pc')
  {
  }

  lemma LocalKnowsRoles(cfg: Config, g: Shared, me: nat, pc: PC, ch: Choice)
    requires Shaped(g) && Knows(cfg, g, me, pc)
    ensures var (g', pc') := Local(cfg, g, me, pc, ch); MaintainerKnows(g', me, pc') && CloserKnows(g', me, pc')
  {
    LocalMaintains(cfg, g, me, pc, ch);
    LocalCloses(cfg, g, me, pc, ch);
  }

  // ---- the invariant ----------------------------------------------------------------

  /** Only the resizer has permits still to move. */
  ghost predicate CapacityLaw(cfg: Config, s: State) {
    s.g.limit + Sum(s.actors, Unfinished) + s.g.debt <= cfg.maxConnsLimit
  }

  /** The lock is held by the actor inside the critical section, and only then. */
  ghost predicate LockIsOwned(s: State) {
    s.g.resizer.Some? ==> s.g.resizer.value < |s.actors| && InCritical(s.actors[s.g.resizer.value])
  }

  ghost predicate Inv(cfg: Config, s: State) {
    && Shaped(s.g)
    && LockIsOwned(s)
    && Ceilings(cfg, s.g)
    && (forall i :: 0 <= i < |s.actors| ==> Knows(cfg, s.g, i, s.actors[i]))
    && SlotLaw(s)
    && PermitLaw(s)
    && CapacityLaw(cfg, s)
    && DiscardLaw(s)
    && CheckedOutLaw(s)
    && OwnershipLaw(s)
  }

  lemma PermitsNonNegative(s: State)
    ensures forall pc :: pc in s.actors ==> Permits(pc) >= 0 && Slots(pc) >= 0
    ensures Sum(s.actors, Permits) >= 0 && Sum(s.actors, Slots) >= 0
  {
    SumNonNegative(s.actors, Permits);
    SumNonNegative(s.actors, Slots);
  }

  /** While actor i is the resizer, the unfinished part is its own. */
  lemma OneResizer(cfg: Config, s: State, i: nat)
    requires i < |s.actors| && InCritical(s.actors[i])
    requires forall j :: 0 <= j < |s.actors| ==> Knows(cfg, s.g, j, s.actors[j])
    ensures Sum(s.actors, Unfinished) == Unfinished(s.actors[i])
  {
    SumUpdate(s.actors, Unfinished, i, Idle);
    var others := s.actors[i := Idle];
    forall j | 0 <= j < |others| ensures Unfinished(others[j]) == 0 {
      assert Knows(cfg, s.g, j, s.actors[j]) && Knows(cfg, s.g, i, s.actors[i]);
    }
    SumIsZero(others, Unfinished);
  }

  /** "Channel full" is never seen by an actor that gives a permit back or hands one
      out: the default branches of release and of a growing resize are not taken. */
  lemma SendsAreNeverDropped(cfg: Config, s: State, i: nat)
    requires Inv(cfg, s) && i < |s.actors|
    ensures RoomToSend(cfg, s.g, s.actors[i])
  {
    var pc := s.actors[i];
    PermitsNonNegative(s);
    if pc.Putting? && pc.put.Send? {
      SumAtLeast(s.actors, Permits, i);
    } else if pc.Resizing? && pc.rz.SendR? {
      OneResizer(cfg, s, i);
    }
  }

  /** What a step does to limit + debt, net of the unfinished part of a resize. */
  lemma ResizeCapacity(cfg: Config, g: Shared, me: nat, n: nat, delta: int, rz: ResizePc, ch: Choice)
    requires Shaped(g) && DeltaInLoop(Resizing(n, delta, rz))
    ensures var (g', pc') := ResizeStep(cfg, g, me, n, delta, rz, ch);
            g'.limit + Unfinished(pc') + g'.debt
            <= g.limit + Unfinished(Resizing(n, delta, rz)) + g.debt + (if rz.SendR? then 1 else 0)
  {
  }

  lemma LocalCapacity(cfg: Config, g: Shared, me: nat, pc: PC, ch: Choice)
    requires Shaped(g) && DeltaInLoop(pc)
    ensures var (g', pc') := Local(cfg, g, me, pc, ch);
            g'.limit + Unfinished(pc') + g'.debt
            <= g.limit + Unfinished(pc) + g.debt + (if pc.Resizing? && pc.rz.SendR? then 1 else 0)
  {
    if pc.Resizing? {
      ResizeCapacity(cfg, g, me, pc.n, pc.delta, pc.rz, ch);
    }
  }

  lemma StepCapacity(cfg: Config, s: State, l: Label)
    requires Inv(cfg, s) && l.actor < |s.actors|
    ensures CapacityLaw(cfg, Step(cfg, s, l))
  {
    var i, pc := l.actor, s.actors[l.actor];
    assert Knows(cfg, s.g, i, pc);
    LocalCapacity(cfg, s.g, i, pc, l.choice);
    SumUpdate(s.actors, Unfinished, i, Local(cfg, s.g, i, pc, l.choice).1);
    if pc.Resizing? && pc.rz.SendR? {
      OneResizer(cfg, s, i);
    }
  }

  lemma StepLaws(cfg: Config, s: State, l: Label)
    requires Inv(cfg, s) && l.actor < |s.actors|
    ensures var t := Step(cfg, s, l); SlotLaw(t) && PermitLaw(t) && DiscardLaw(t) && CheckedOutLaw(t)
  {
    var i, pc := l.actor, s.actors[l.actor];
    var (g', pc') := Local(cfg, s.g, i, pc, l.choice);
    SendsAreNeverDropped(cfg, s, i);
    LocalBalances(cfg, s.g, i, pc, l.choice, 0);
    SumUpdate(s.actors, Slots, i, pc');
    SumUpdate(s.actors, Permits, i, pc');
    SumUpdate(s.actors, Unfinished, i, pc');
    SumUpdate(s.actors, Uncounted, i, pc');
    SumUpdate(s.actors, HandedOut, i, pc');
  }

  lemma StepOwnership(cfg: Config, s: State, l: Label)
    requires Inv(cfg, s) && l.actor < |s.actors|
    ensures OwnershipLaw(Step(cfg, s, l))
  {
    var i, pc := l.actor, s.actors[l.actor];
    var (g', pc') := Local(cfg, s.g, i, pc, l.choice);
    var t := Step(cfg, s, l);
    SendsAreNeverDropped(cfg, s, i);
    forall c: Conn ensures Places(t, c) == if c < t.g.next then 1 else 0 {
      assert Places(s, c) == if c < s.g.next then 1 else 0;
      LocalBalances(cfg, s.g, i, pc, l.choice, c);
      SumUpdate(s.actors, Owns(c), i, pc');
    }
  }

  lemma StepKnows(cfg: Config, s: State, l: Label)
    requires Inv(cfg, s) && l.actor < |s.actors|
    ensures var t := Step(cfg, s, l);
            Ceilings(cfg, t.g) && forall j :: 0 <= j < |t.actors| ==> Knows(cfg, t.g, j, t.actors[j])
  {
    var i, pc := l.actor, s.actors[l.actor];
    var t := Step(cfg, s, l);
    LocalKnowsCeilings(cfg, s.g, i, pc, l.choice);
    LocalKnowsRoles(cfg, s.g, i, pc, l.choice);
    LocalOneAtATime(cfg, s.g, i, pc, l.choice);
    forall j | 0 <= j < |t.actors| ensures Knows(cfg, t.g, j, t.actors[j]) {
      if j != i {
        KnowsSurvives(cfg, s.g, t.g, i, j, s.actors[j]);
      }
    }
  }

  lemma LocalLocks(cfg: Config, g: Shared, me: nat, pc: PC, ch: Choice)
    requires Shaped(g) && (g.resizer == Some(me) ==> InCritical(pc)) && (InCritical(pc) ==> g.resizer == Some(me))
    ensures var (g', pc') := Local(cfg, g, me, pc, ch);
            g'.resizer == g.resizer || g'.resizer == Some(me) || (g'.resizer.None? && g.resizer == Some(me))
  {
  }

  lemma LocalHoldsLock(cfg: Config, g: Shared, me: nat, pc: PC, ch: Choice)
    requires Shaped(g) && (g.resizer == Some(me) ==> InCritical(pc)) && (InCritical(pc) ==> g.resizer == Some(me))
    ensures var (g', pc') := Local(cfg, g, me, pc, ch); g'.resizer == Some(me) ==> InCritical(pc')
  {
  }

  lemma LocalLock(cfg: Config, g: Shared, me: nat, pc: PC, ch: Choice)
    requires Shaped(g) && (g.resizer == Some(me) ==> InCritical(pc)) && (InCritical(pc) ==> g.resizer == Some(me))
    ensures var (g', pc') := Local(cfg, g, me, pc, ch);
            g'.resizer == g.resizer || g'.resizer == Some(me) || (g'.resizer.None? && g.resizer == Some(me))
    ensures var (g', pc') := Local(cfg, g, me, pc, ch); g'.resizer == Some(me) ==> InCritical(pc')
  {
    LocalLocks(cfg, g, me, pc, ch);
    LocalHoldsLock(cfg, g, me, pc, ch);
  }

  lemma StepLock(cfg: Config, s: State, l: Label)
    requires Inv(cfg, s) && l.actor < |s.actors|
    ensures LockIsOwned(Step(cfg, s, l))
  {
    assert Knows(cfg, s.g, l.actor, s.actors[l.actor]);
    LocalLock(cfg, s.g, l.actor, s.actors[l.actor], l.choice);
  }

  lemma StepKeepsInv(cfg: Config, s: State, l: Label)
    requires Inv(cfg, s)
    ensures Inv(cfg, Step(cfg, s, l))
  {
    if l.actor < |s.actors| {
      StepKnows(cfg, s, l);
      StepLaws(cfg, s, l);
      StepCapacity(cfg, s, l);
      StepLock(cfg, s, l);
      StepOwnership(cfg, s, l);
    }
  }

  lemma InitLaws(cfg: Config, callers: nat)
    ensures var s := Init(cfg, callers);
            SlotLaw(s) && PermitLaw(s) && DiscardLaw(s) && CheckedOutLaw(s) && Sum(s.actors, Unfinished) == 0
  {
    var s := Init(cfg, callers);
    SumIsZero(s.g.shards, Length);
    SumIsZero(s.actors, Slots);
    SumIsZero(s.actors, Permits);
    SumIsZero(s.actors, Unfinished);
    SumIsZero(s.actors, Uncounted);
    SumIsZero(s.actors, HandedOut);
    SumIsZero(s.g.discarded, AsInt);
  }

  lemma InitOwnership(cfg: Config, callers: nat)
    ensures OwnershipLaw(Init(cfg, callers))
  {
    var s := Init(cfg, callers);
    forall c: Conn ensures Places(s, c) == 0 {
      SumIsZero(s.g.shards, InShard(c));
      SumIsZero(s.actors, Owns(c));
    }
  }

  lemma InitInv(cfg: Config, callers: nat)
    requires ValidConfig(cfg)
    ensures Inv(cfg, Init(cfg, callers))
  {
    InitLaws(cfg, callers);
    InitOwnership(cfg, callers);
  }

  /** The invariant holds after every run, whatever the interleaving. */
  lemma {:induction false} RunKeepsInv(cfg: Config, s: State, labels: seq<Label>)
    requires Inv(cfg, s)
    ensures Inv(cfg, Run(cfg, s, labels))
    decreases |labels|
  {
    if labels != [] {
      StepKeepsInv(cfg, s, labels[0]);
      RunKeepsInv(cfg, Step(cfg, s, labels[0]), labels[1..]);
    }
  }
}
