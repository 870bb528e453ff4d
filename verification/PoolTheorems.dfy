/** What the pool promises over whole runs. */
module PoolTheorems {
  import opened Options
  import opened Sums
  import opened PoolProtocol
  import opened Striping
  import opened PoolInvariant

  // ---- ownership and ceilings -------------------------------------------------------

  /** After any run, a connection is in one shard slot, owned by one actor, or closed
      once: never two of these, and never lost. */
  lemma {:induction false} EveryConnectionHasOnePlace(cfg: Config, callers: nat, labels: seq<Label>, c: Conn)
    requires ValidConfig(cfg)
    ensures var s := Run(cfg, Init(cfg, callers), labels);
            Places(s, c) == (if c < s.g.next then 1 else 0)
  {
    InitInv(cfg, callers);
    RunKeepsInv(cfg, Init(cfg, callers), labels);
  }

  /** No two calls ever have the same connection in hand, and one that a call has in hand
      is in no shard. */
  lemma {:induction false} NeverSharedByTwoActors(cfg: Config, callers: nat, labels: seq<Label>,
                                                  i: nat, j: nat, c: Conn)
    requires ValidConfig(cfg)
    requires var s := Run(cfg, Init(cfg, callers), labels); i < j < |s.actors|
    ensures var s := Run(cfg, Init(cfg, callers), labels);
            Owns(c)(s.actors[i]) == 0 || Owns(c)(s.actors[j]) == 0
    ensures var s := Run(cfg, Init(cfg, callers), labels);
            Owns(c)(s.actors[i]) + Owns(c)(s.actors[j]) > 0 ==>
              forall q :: 0 <= q < SHARDS ==> Occurs(s.g.shards[q], c) == 0
  {
    var s := Run(cfg, Init(cfg, callers), labels);
    EveryConnectionHasOnePlace(cfg, callers, labels, c);
    SumNonNegative(s.g.shards, InShard(c));
    var rest := s.actors[i := Idle];
    SumUpdate(s.actors, Owns(c), i, Idle);
    SumAtLeast(rest, Owns(c), j);
    assert Owns(c)(Idle) == 0;
    SumNonNegative(rest, Owns(c));
    forall q | 0 <= q < SHARDS && Owns(c)(s.actors[i]) + Owns(c)(s.actors[j]) > 0
      ensures Occurs(s.g.shards[q], c) == 0
    {
      SumAtLeast(s.g.shards, InShard(c), q);
    }
  }

  /** Connections open to the server, wherever they are. */
  function OpenTo(s: State): int {
    IdleCount(s.g) + Sum(s.actors, OpenConns)
  }

  /** Every SetMaxConns the run does not have refused asks for at most bound. */
  ghost predicate AsksAtMost(cfg: Config, labels: seq<Label>, bound: nat) {
    forall i :: 0 <= i < |labels| && labels[i].choice.op.SetMaxConns? ==>
      labels[i].choice.op.n <= bound || labels[i].choice.op.n > cfg.maxConnsLimit
  }

  /** A run that never asks for more than bound is a run of the pool whose hard limit is
      bound: the only other use of the limit is the channel's capacity, never reached. */
  lemma {:induction false} RunUnderBound(cfg: Config, tight: Config, s: State, labels: seq<Label>)
    requires tight == cfg.(maxConnsLimit := tight.maxConnsLimit) && tight.maxConnsLimit <= cfg.maxConnsLimit
    requires Inv(tight, s) && AsksAtMost(cfg, labels, tight.maxConnsLimit)
    ensures Run(cfg, s, labels) == Run(tight, s, labels)
    decreases |labels|
  {
    if labels != [] {
      var l := labels[0];
      if l.actor < |s.actors| {
        SendsAreNeverDropped(tight, s, l.actor);
        SameStep(cfg, tight, s.g, l.actor, s.actors[l.actor], l.choice);
      }
      StepKeepsInv(tight, s, l);
      RunUnderBound(cfg, tight, Step(tight, s, l), labels[1..]);
    }
  }

  lemma SameStep(cfg: Config, tight: Config, g: Shared, me: nat, pc: PC, ch: Choice)
    requires Shaped(g) && RoomToSend(tight, g, pc)
    requires tight == cfg.(maxConnsLimit := tight.maxConnsLimit) && tight.maxConnsLimit <= cfg.maxConnsLimit
    requires ch.op.SetMaxConns? ==> ch.op.n <= tight.maxConnsLimit || ch.op.n > cfg.maxConnsLimit
    ensures Local(cfg, g, me, pc, ch) == Local(tight, g, me, pc, ch)
  {
  }

  lemma OpenIsCounted(cfg: Config, s: State)
    requires Inv(cfg, s)
    ensures 0 <= OpenTo(s) + Sum(s.actors, Dialling) <= s.g.total <= cfg.maxConnsLimit
  {
    SumOfSums(s.actors, OpenConns, Dialling, Slots);
    SumNonNegative(s.actors, OpenConns);
    SumNonNegative(s.actors, Dialling);
    SumNonNegative(s.g.shards, Length);
  }

  /** Open connections and dials in flight never exceed totalConns, and totalConns never
      exceeds the highest ceiling asked for: MaxConnsLimit always, MaxConns if the pool
      is never resized. */
  lemma CeilingHolds(cfg: Config, callers: nat, labels: seq<Label>, bound: nat)
    requires ValidConfig(cfg) && cfg.maxConns <= bound <= cfg.maxConnsLimit && AsksAtMost(cfg, labels, bound)
    ensures var s := Run(cfg, Init(cfg, callers), labels);
            0 <= OpenTo(s) + Sum(s.actors, Dialling) <= s.g.total <= bound
  {
    var tight := cfg.(maxConnsLimit := bound);
    InitInv(tight, callers);
    RunUnderBound(cfg, tight, Init(cfg, callers), labels);
    RunKeepsInv(tight, Init(cfg, callers), labels);
    OpenIsCounted(tight, Run(tight, Init(cfg, callers), labels));
  }

  /** MaxConnsLimit bounds the pool whatever SetMaxConns is asked for. */
  lemma HardCeilingHolds(cfg: Config, callers: nat, labels: seq<Label>)
    requires ValidConfig(cfg)
    ensures var s := Run(cfg, Init(cfg, callers), labels);
            0 <= OpenTo(s) + Sum(s.actors, Dialling) <= s.g.total <= cfg.maxConnsLimit
  {
    CeilingHolds(cfg, callers, labels, cfg.maxConnsLimit);
  }

  /** The permit channel is never full for an actor that sends on it, and with no resize
      under way it and the debt account for every permit held. */
  lemma PermitsAreConserved(cfg: Config, callers: nat, labels: seq<Label>)
    requires ValidConfig(cfg)
    ensures var s := Run(cfg, Init(cfg, callers), labels);
            && PermitLaw(s) && CapacityLaw(cfg, s)
            && (forall i :: 0 <= i < |s.actors| ==> RoomToSend(cfg, s.g, s.actors[i]))
            && (s.g.resizer.None? ==>
                 s.g.tokens + Sum(s.actors, Permits) == s.g.maxConns + s.g.debt <= cfg.maxConnsLimit)
  {
    InitInv(cfg, callers);
    RunKeepsInv(cfg, Init(cfg, callers), labels);
    var s := Run(cfg, Init(cfg, callers), labels);
    forall i | 0 <= i < |s.actors| ensures RoomToSend(cfg, s.g, s.actors[i]) {
      SendsAreNeverDropped(cfg, s, i);
    }
    if s.g.resizer.None? {
      NobodyUnfinished(cfg, s);
    }
  }

  lemma NobodyUnfinished(cfg: Config, s: State)
    requires Inv(cfg, s) && s.g.resizer.None?
    ensures Sum(s.actors, Unfinished) == 0
  {
    forall pc | pc in s.actors ensures Unfinished(pc) == 0 {
      var i :| 0 <= i < |s.actors| && s.actors[i] == pc;
      assert Knows(cfg, s.g, i, pc);
    }
    SumIsZero(s.actors, Unfinished);
  }

  /** Every closed connection is closed once and counted once; none is counted that was
      not closed. checkedOut is the number of handles not yet released. */
  lemma DiscardsAddUp(cfg: Config, callers: nat, labels: seq<Label>)
    requires ValidConfig(cfg)
    ensures var s := Run(cfg, Init(cfg, callers), labels);
            && |s.g.dead| == Discarded(s.g) + Sum(s.actors, Uncounted)
            && (forall c: Conn :: Occurs(s.g.dead, c) <= 1)
            && s.g.checkedOut == Sum(s.actors, HandedOut)
  {
    InitInv(cfg, callers);
    RunKeepsInv(cfg, Init(cfg, callers), labels);
    var s := Run(cfg, Init(cfg, callers), labels);
    forall c: Conn ensures Occurs(s.g.dead, c) <= 1 {
      assert Places(s, c) <= 1;
      SumNonNegative(s.g.shards, InShard(c));
      SumNonNegative(s.actors, Owns(c));
    }
  }

  // ---- a permit holder is never wedged ----------------------------------------------

  /** An actor that destroys connections without holding a permit: a trimmer, an
      evictor, the reaper, or the final sweep of Close. */
  predicate DestroysWithoutPermit(pc: PC) {
    || (pc.Holding? && pc.hold.Judge? && pc.hold.p.ForTrim?)
    || (pc.Destroying? && (pc.back.ToSweep? || TrimsBehind(pc.back)))
  }

  /** Units of totalConns about to be given back by such an actor. */
  function Leaving(pc: PC): int {
    if DestroysWithoutPermit(pc) then Slots(pc) else 0
  }

  /** The actor holds a permit, owns nothing, and is looking for a connection. */
  predicate LooksForConnection(pc: PC) {
    || pc.Admitted?
    || (pc.Probe? && pc.p.ForTake?)
    || (pc.Reserving? && pc.w.Caller? && !pc.res.Dial? && !pc.res.Undial?)
  }

  /** The two bounds agree, as they do whenever no resize is under way. */
  ghost predicate Settled(s: State) {
    s.g.limit == s.g.maxConns && s.g.debt == 0 && Sum(s.actors, Unfinished) <= 0
  }

  /** The counting argument of take: at the ceiling, a permit holder that owns nothing
      leaves room for a connection that is idle or on its way out. */
  lemma AtTheCeilingSomethingIsComing(cfg: Config, s: State, i: nat)
    requires Inv(cfg, s) && i < |s.actors| && LooksForConnection(s.actors[i])
    requires Settled(s) && s.g.total >= s.g.maxConns
    ensures IdleCount(s.g) + Sum(s.actors, Leaving) >= 1
  {
    var others := s.actors[i := Idle];
    SumUpdate(s.actors, Slots, i, Idle);
    SumUpdate(s.actors, Permits, i, Idle);
    SumUpdate(s.actors, Leaving, i, Idle);
    forall pc | pc in others ensures Slots(pc) <= Permits(pc) + Leaving(pc) {
      var j :| 0 <= j < |others| && others[j] == pc;
      assert Knows(cfg, s.g, j, s.actors[j]);
    }
    SumDominated(others, Slots, Permits, Leaving);
  }

  /** The same, over every run, naming who has it. */
  lemma NeverWedged(cfg: Config, callers: nat, labels: seq<Label>, i: nat)
    requires ValidConfig(cfg)
    requires var s := Run(cfg, Init(cfg, callers), labels);
             i < |s.actors| && LooksForConnection(s.actors[i]) && Settled(s) && s.g.total >= s.g.maxConns
    ensures var s := Run(cfg, Init(cfg, callers), labels);
            || (exists j :: 0 <= j < SHARDS && s.g.shards[j] != [])
            || (exists j :: 0 <= j < |s.actors| && DestroysWithoutPermit(s.actors[j]) && Slots(s.actors[j]) > 0)
  {
    InitInv(cfg, callers);
    RunKeepsInv(cfg, Init(cfg, callers), labels);
    var s := Run(cfg, Init(cfg, callers), labels);
    AtTheCeilingSomethingIsComing(cfg, s, i);
    if IdleCount(s.g) > 0 {
      var j := SumPositive(s.g.shards, Length);
    } else {
      var j := SumPositive(s.actors, Leaving);
    }
  }

  // ---- one solo iteration of take is enough -----------------------------------------

  /** Actor i alone takes n steps; the environment answers them from k on. */
  function Solo(cfg: Config, s: State, i: nat, answers: nat -> Choice, k: nat, n: nat): (t: State)
    requires Shaped(s.g)
    ensures Shaped(t.g)
    decreases n
  {
    if n == 0 then s else Solo(cfg, Step(cfg, s, Label(i, answers(k))), i, answers, k + 1, n - 1)
  }

  predicate EmptyBehind(g: Shared, start: nat, k: nat)
    requires Shaped(g)
  {
    forall q :: 0 <= q < k && q < SHARDS ==> g.shards[ShardAt(start, q)] == []
  }

  /** Inside one iteration of take: the shards already probed are empty, and what was
      loaded is still current because nobody else moves. */
  ghost predicate Iterating(g: Shared, pc: PC)
    requires Shaped(g)
  {
    match pc
    case Probe(p, start, k) => p.ForTake? && EmptyBehind(g, start, k)
    case Holding(_, _, hold) => hold.Judge? && hold.p.ForTake? && EmptyBehind(g, hold.start, hold.k)
    case Destroying(_, _, back, _) => back.ToProbe? && back.p.ForTake? && EmptyBehind(g, back.start, back.k)
    case Reserving(w, res) =>
      && w.Caller? && IdleCount(g) == 0
      && (res.LoadTotal? || (res.LoadMax? && res.cur == g.total) || (res.Swap? && res.cur == g.total))
    case _ => false
  }

  predicate Served(pc: PC) {
    (pc.Holding? && pc.hold.Got?) || (pc.Reserving? && pc.res.Dial?)
  }

  /** How much of the iteration is left. */
  function Remaining(g: Shared, pc: PC): int {
    100 * IdleCount(g) +
    match pc
    case Probe(_, _, k) => 20 + (if k < SHARDS then SHARDS - k else 0)
    case Holding(_, _, hold) => if hold.Judge? && hold.k < SHARDS then 70 + SHARDS - hold.k else 70
    case Destroying(cs, _, back, des) =>
      (if des.Count? then 50 else if des.Free? then 40 else if cs == [] then 30 else 60) +
      (if back.ToProbe? && back.k < SHARDS then SHARDS - back.k else 0)
    case Reserving(_, res) => if res.LoadTotal? then 3 else if res.LoadMax? then 2 else 1
    case _ => 0
  }

  /** Nobody else is resizing or giving a slot back, and the bounds agree. */
  ghost predicate Quiet(s: State) {
    s.g.resizer.None? && s.g.debt == 0 && Sum(s.actors, Leaving) == 0
  }

  lemma EmptyShardsCountZero(g: Shared, start: nat)
    requires Shaped(g) && EmptyBehind(g, start, SHARDS)
    ensures IdleCount(g) == 0
  {
    forall j | 0 <= j < SHARDS ensures g.shards[j] == [] {
      TurnIsProbed(start, j, Turn(j, start));
      assert g.shards[ShardAt(start, Turn(j, start))] == [];
    }
    SumIsZero(g.shards, Length);
  }

  ghost predicate Progresses(g: Shared, pc: PC, g': Shared, pc': PC)
    requires Shaped(g) && Shaped(g')
  {
    && g'.maxConns == g.maxConns && g'.limit == g.limit && g'.debt == g.debt && g'.resizer == g.resizer
    && (Served(pc') || (Iterating(g', pc') && Remaining(g', pc') < Remaining(g, pc)))
    && Leaving(pc) == 0 && Leaving(pc') == 0
  }

  lemma PoppingProgress(g: Shared, start: nat, k: nat)
    requires Shaped(g) && Iterating(g, Probe(ForTake, start, k))
    ensures var (g', pc') := ProbeStep(g, ForTake, start, k); Progresses(g, Probe(ForTake, start, k), g', pc')
  {
    if k >= SHARDS {
      EmptyShardsCountZero(g, start);
    } else {
      var idx := ShardAt(start, k);
      var conns := g.shards[idx];
      if conns != [] {
        SetShard(g, idx, conns[..|conns| - 1], 0);
      }
    }
  }

  lemma JudgingProgress(g: Shared, c: Conn, sh: nat, hold: HoldPc, ch: Choice)
    requires Shaped(g) && Iterating(g, Holding(c, sh, hold))
    ensures var (g', pc') := HoldStep(g, c, sh, hold, ch); Progresses(g, Holding(c, sh, hold), g', pc')
  {
  }

  lemma DestroyingProgress(g: Shared, cs: seq<Conn>, why: Option<Discard>, back: Cont, des: DestroyPc, ch: Choice)
    requires Shaped(g) && Iterating(g, Destroying(cs, why, back, des)) && OneAtATime(Destroying(cs, why, back, des))
    ensures var (g', pc') := DestroyStep(g, cs, why, back, des, ch);
      Progresses(g, Destroying(cs, why, back, des), g', pc')
  {
  }

  /** The probing half of an iteration makes progress. */
  lemma ProbeProgress(cfg: Config, g: Shared, me: nat, pc: PC, ch: Choice)
    requires Shaped(g) && Iterating(g, pc) && !pc.Reserving? && OneAtATime(pc)
    ensures var (g', pc') := Local(cfg, g, me, pc, ch); Shaped(g') && Progresses(g, pc, g', pc')
  {
    if pc.Probe? {
      PoppingProgress(g, pc.start, pc.k);
    } else if pc.Holding? {
      JudgingProgress(g, pc.c, pc.sh, pc.hold, ch);
    } else {
      DestroyingProgress(g, pc.cs, pc.why, pc.back, pc.des, ch);
    }
  }

  lemma ReserveProgress(cfg: Config, s: State, i: nat, ch: Choice)
    requires Inv(cfg, s) && i < |s.actors| && s.actors[i].Reserving? && Iterating(s.g, s.actors[i]) && Quiet(s)
    requires s.actors[i].res.Swap? ==> s.g.total < s.g.maxConns
    ensures var (g', pc') := Local(cfg, s.g, i, s.actors[i], ch);
            && g'.maxConns == s.g.maxConns && g'.debt == s.g.debt && g'.resizer == s.g.resizer
            && (Served(pc') || (Iterating(g', pc') && Remaining(g', pc') < Remaining(s.g, s.actors[i])
                                && (pc'.res.Swap? ==> g'.total < g'.maxConns)))
            && Leaving(s.actors[i]) == 0 && Leaving(pc') == 0
  {
    if s.actors[i].res.LoadMax? {
      NobodyUnfinished(cfg, s);
      if s.g.total >= s.g.maxConns {
        AtTheCeilingSomethingIsComing(cfg, s, i);
      }
    }
  }

  lemma RemainingIsNonNegative(g: Shared, pc: PC)
    ensures Remaining(g, pc) >= 0
  {
    SumNonNegative(g.shards, Length);
  }

  /** One step of an iteration run alone serves the actor or brings it nearer. */
  lemma StepProgresses(cfg: Config, s: State, i: nat, ch: Choice)
    requires Inv(cfg, s) && i < |s.actors| && Quiet(s) && Iterating(s.g, s.actors[i])
    requires s.actors[i].Reserving? && s.actors[i].res.Swap? ==> s.g.total < s.g.maxConns
    ensures var t := Step(cfg, s, Label(i, ch));
      && Inv(cfg, t) && Quiet(t)
      && (Served(t.actors[i]) ||
          (&& Iterating(t.g, t.actors[i]) && 0 <= Remaining(t.g, t.actors[i]) < Remaining(s.g, s.actors[i])
           && (t.actors[i].Reserving? && t.actors[i].res.Swap? ==> t.g.total < t.g.maxConns)))
  {
    var pc, t := s.actors[i], Step(cfg, s, Label(i, ch));
    StepKeepsInv(cfg, s, Label(i, ch));
    assert Knows(cfg, s.g, i, pc);
    if pc.Reserving? {
      ReserveProgress(cfg, s, i, ch);
    } else {
      ProbeProgress(cfg, s.g, i, pc, ch);
    }
    SumUpdate(s.actors, Leaving, i, t.actors[i]);
    RemainingIsNonNegative(t.g, t.actors[i]);
  }

  /** Once nobody else is giving a slot back, one iteration of take run alone returns an
      idle connection or wins a reservation, whatever the driver says of the idle ones
      it passes: it does not come round to the ceiling and yield again. */
  lemma {:induction false} OneIterationIsEnough(cfg: Config, s: State, i: nat, answers: nat -> Choice, k: nat)
    returns (n: nat)
    requires Inv(cfg, s) && i < |s.actors| && Quiet(s)
    requires Iterating(s.g, s.actors[i])
    requires s.actors[i].Reserving? && s.actors[i].res.Swap? ==> s.g.total < s.g.maxConns
    ensures var t := Solo(cfg, s, i, answers, k, n); |t.actors| == |s.actors| && Served(t.actors[i])
    ensures forall m :: 0 <= m < n ==>
      var t := Solo(cfg, s, i, answers, k, m); |t.actors| == |s.actors| && Iterating(t.g, t.actors[i])
    decreases Remaining(s.g, s.actors[i])
  {
    var t := Step(cfg, s, Label(i, answers(k)));
    StepProgresses(cfg, s, i, answers(k));
    if Served(t.actors[i]) {
      n := 1;
      assert Solo(cfg, t, i, answers, k + 1, 0) == t;
    } else {
      n := OneIterationIsEnough(cfg, t, i, answers, k + 1);
      n := n + 1;
    }
    forall m | 0 <= m < n
      ensures var u := Solo(cfg, s, i, answers, k, m); |u.actors| == |s.actors| && Iterating(u.g, u.actors[i])
    {
      if m > 0 {
        assert Solo(cfg, s, i, answers, k, m) == Solo(cfg, t, i, answers, k + 1, m - 1);
      }
    }
  }

  /** The same for every run: a caller about to probe, left alone, is served within that
      very probe. */
  lemma TakeIsServedAlone(cfg: Config, callers: nat, labels: seq<Label>, i: nat, start: nat, answers: nat -> Choice)
    requires ValidConfig(cfg)
    requires var s := Run(cfg, Init(cfg, callers), labels);
             i < |s.actors| && s.actors[i] == Probe(ForTake, start, 0) && Quiet(s)
    ensures var s := Run(cfg, Init(cfg, callers), labels);
            exists n :: var t := Solo(cfg, s, i, answers, 0, n); |t.actors| == |s.actors| && Served(t.actors[i])
  {
    InitInv(cfg, callers);
    RunKeepsInv(cfg, Init(cfg, callers), labels);
    var s := Run(cfg, Init(cfg, callers), labels);
    var n := OneIterationIsEnough(cfg, s, i, answers, 0);
  }
}
