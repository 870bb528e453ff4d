/** What becomes of a connection the pool has judged unfit, and of a call on a pool that is
    closed, in every run. */
module PoolVerdicts {
  import opened Options
  import opened Sums
  import opened Partition
  import opened PoolProtocol
  import opened Striping
  import opened PoolInvariant

  /** The verdict on a connection in hand goes against it: the driver says it is unusable, or
      a trim has no use for it, or it comes back to a closed pool, unfit for the next
      caller, or to a pool above its ceiling. */
  predicate Rejects(g: Shared, hold: HoldPc, ch: Choice) {
    match hold
    case Judge(p, _, _) => !ch.yes || p.ForTrim?
    case LoadClosed => g.closed
    case Recycle => !ch.yes
    case Compare(seen) => seen > g.maxConns
    case _ => false
  }

  /** The connection is closed, or in the hands of whoever will close it. */
  ghost predicate Condemned(s: State, c: Conn) {
    c in s.g.dead || exists i :: 0 <= i < |s.actors| && s.actors[i].Destroying? && c in s.actors[i].cs
  }

  lemma DestroyCondemns(g: Shared, c: Conn, cs: seq<Conn>, why: Option<Discard>, back: Cont, des: DestroyPc, ch: Choice)
    requires Shaped(g) && c in cs
    ensures var (g', pc') := DestroyStep(g, cs, why, back, des, ch);
      c in g'.dead || (pc'.Destroying? && c in pc'.cs)
  {
  }

  lemma DeadStaysDead(cfg: Config, g: Shared, me: nat, pc: PC, ch: Choice, c: Conn)
    requires Shaped(g) && c in g.dead
    ensures c in Local(cfg, g, me, pc, ch).0.dead
  {
    if pc.Destroying? {
      assert DestroyStep(g, pc.cs, pc.why, pc.back, pc.des, ch).0.dead[..|g.dead|] == g.dead;
    } else {
      OthersKillNone(cfg, g, me, pc, ch);
    }
  }

  lemma HoldingKillsNone(g: Shared, c: Conn, sh: nat, hold: HoldPc, ch: Choice)
    requires Shaped(g)
    ensures HoldStep(g, c, sh, hold, ch).0.dead == g.dead
  {
  }

  lemma TakingKillsNone(cfg: Config, g: Shared, me: nat, pc: PC, ch: Choice)
    requires Shaped(g) && (pc.Probe? || pc.Sweeping? || pc.Reserving? || pc.Putting?)
    ensures Local(cfg, g, me, pc, ch).0.dead == g.dead
  {
  }

  lemma OthersKillNone(cfg: Config, g: Shared, me: nat, pc: PC, ch: Choice)
    requires Shaped(g) && !pc.Destroying?
    ensures Local(cfg, g, me, pc, ch).0.dead == g.dead
  {
    if pc.Holding? {
      HoldingKillsNone(g, pc.c, pc.sh, pc.hold, ch);
    } else if pc.Probe? || pc.Sweeping? || pc.Reserving? || pc.Putting? {
      TakingKillsNone(cfg, g, me, pc, ch);
    }
  }

  lemma StepCondemns(cfg: Config, s: State, l: Label, c: Conn)
    requires Shaped(s.g) && Condemned(s, c)
    ensures Condemned(Step(cfg, s, l), c)
  {
    if l.actor < |s.actors| {
      var t, pc := Step(cfg, s, l), s.actors[l.actor];
      if c in s.g.dead {
        DeadStaysDead(cfg, s.g, l.actor, pc, l.choice, c);
      } else {
        var i :| 0 <= i < |s.actors| && s.actors[i].Destroying? && c in s.actors[i].cs;
        if i == l.actor {
          DestroyCondemns(s.g, c, pc.cs, pc.why, pc.back, pc.des, l.choice);
          assert c !in t.g.dead ==> t.actors[i].Destroying? && c in t.actors[i].cs;
        } else {
          assert t.actors[i] == s.actors[i];
        }
      }
    }
  }

  lemma {:induction false} RunCondemns(cfg: Config, s: State, labels: seq<Label>, c: Conn)
    requires Shaped(s.g) && Condemned(s, c)
    ensures Condemned(Run(cfg, s, labels), c)
    decreases |labels|
  {
    if labels != [] {
      StepCondemns(cfg, s, labels[0], c);
      RunCondemns(cfg, Step(cfg, s, labels[0]), labels[1..], c);
    }
  }

  lemma {:induction false} InMeansOccurs(xs: seq<Conn>, c: Conn)
    ensures c in xs <==> Occurs(xs, c) > 0
  {
    if xs != [] {
      InMeansOccurs(xs[1..], c);
      assert xs == [xs[0]] + xs[1..];
    }
  }

  /** Nobody can be given such a connection. */
  lemma CondemnedIsNowhere(cfg: Config, s: State, c: Conn)
    requires Inv(cfg, s) && Condemned(s, c)
    ensures forall q :: 0 <= q < SHARDS ==> c !in s.g.shards[q]
    ensures forall j :: 0 <= j < |s.actors| && s.actors[j].Holding? ==> s.actors[j].c != c
  {
    assert Places(s, c) <= 1;
    InMeansOccurs(s.g.dead, c);
    SumNonNegative(s.g.shards, InShard(c));
    SumNonNegative(s.actors, Owns(c));
    if c !in s.g.dead {
      var i :| 0 <= i < |s.actors| && s.actors[i].Destroying? && c in s.actors[i].cs;
      InMeansOccurs(s.actors[i].cs, c);
      SumAtLeast(s.actors, Owns(c), i);
    }
    forall q | 0 <= q < SHARDS ensures c !in s.g.shards[q] {
      SumAtLeast(s.g.shards, InShard(c), q);
      InMeansOccurs(s.g.shards[q], c);
    }
    forall j | 0 <= j < |s.actors| && s.actors[j].Holding? ensures s.actors[j].c != c {
      if s.actors[j].c == c {
        HolderIsAlone(s, c, j);
      }
    }
  }

  /** A holder's is the only hand a connection with one place is in. */
  lemma HolderIsAlone(s: State, c: Conn, j: nat)
    requires j < |s.actors| && s.actors[j].Holding? && s.actors[j].c == c
    requires Places(s, c) <= 1
    ensures !Condemned(s, c)
  {
    InMeansOccurs(s.g.dead, c);
    SumNonNegative(s.g.shards, InShard(c));
    SumUpdate(s.actors, Owns(c), j, Idle);
    var others := s.actors[j := Idle];
    SumNonNegative(others, Owns(c));
    forall i | 0 <= i < |s.actors| && s.actors[i].Destroying? ensures c !in s.actors[i].cs {
      assert others[i] == s.actors[i];
      SumAtLeast(others, Owns(c), i);
      InMeansOccurs(s.actors[i].cs, c);
    }
  }

  lemma RejectionCondemns(cfg: Config, s: State, i: nat, ch: Choice)
    requires Shaped(s.g) && i < |s.actors| && s.actors[i].Holding? && Rejects(s.g, s.actors[i].hold, ch)
    ensures var t := Step(cfg, s, Label(i, ch));
      Condemned(t, s.actors[i].c) && t.g.dead == s.g.dead
      && t.actors[i].Destroying? && t.actors[i].cs == [s.actors[i].c] && t.actors[i].des.CloseConn?
  {
    var t := Step(cfg, s, Label(i, ch));
    assert t.actors[i].Destroying? && t.actors[i].cs == [s.actors[i].c];
  }

  /** A connection the verdict went against is never pooled, checked out or judged again, in
      any continuation; and its holder's very next step closes it. */
  lemma RejectedIsGone(cfg: Config, s: State, i: nat, ch: Choice, after: seq<Label>)
    requires Inv(cfg, s) && i < |s.actors| && s.actors[i].Holding? && Rejects(s.g, s.actors[i].hold, ch)
    ensures var c, t := s.actors[i].c, Run(cfg, Step(cfg, s, Label(i, ch)), after);
      && |t.actors| == |s.actors|
      && (forall q :: 0 <= q < SHARDS ==> c !in t.g.shards[q])
      && (forall j :: 0 <= j < |t.actors| && t.actors[j].Holding? ==> t.actors[j].c != c)
    ensures forall next :: Step(cfg, Step(cfg, s, Label(i, ch)), Label(i, next)).g.dead == s.g.dead + [s.actors[i].c]
  {
    var c, t := s.actors[i].c, Step(cfg, s, Label(i, ch));
    RejectionCondemns(cfg, s, i, ch);
    StepKeepsInv(cfg, s, Label(i, ch));
    RunKeepsInv(cfg, t, after);
    RunCondemns(cfg, t, after, c);
    CondemnedIsNowhere(cfg, Run(cfg, t, after), c);
  }

  // ---- a closed pool -----------------------------------------------------------------

  /** A call that has no connection and is on its way to none. */
  predicate Outside(pc: PC) {
    || pc.Idle? || pc.Waiting? || pc.Admitted? || pc.Shutting?
    || (pc.Putting? && pc.a.Finish?)
    || (pc.Sweeping? && pc.kind.Draining?)
    || (pc.Destroying? && pc.back.ToSweep? && pc.back.kind.Draining?)
  }

  lemma OutsideStays(cfg: Config, g: Shared, me: nat, pc: PC, ch: Choice)
    requires Shaped(g) && g.closed && Outside(pc)
    ensures Outside(Local(cfg, g, me, pc, ch).1)
  {
  }

  lemma ClosedStays(cfg: Config, g: Shared, me: nat, pc: PC, ch: Choice)
    requires Shaped(g) && g.closed
    ensures Local(cfg, g, me, pc, ch).0.closed
  {
  }

  /** Once the pool is closed nobody who had no connection ever gets one, not even a caller
      who was queued for a permit or has just been given one; nor does a new call begin. */
  lemma {:induction false} ClosedServesNobody(cfg: Config, s: State, i: nat, labels: seq<Label>)
    requires Shaped(s.g) && s.g.closed && i < |s.actors| && Outside(s.actors[i])
    ensures var t := Run(cfg, s, labels); t.g.closed && i < |t.actors| && Outside(t.actors[i])
    decreases |labels|
  {
    if labels != [] {
      var l := labels[0];
      if l.actor < |s.actors| {
        ClosedStays(cfg, s.g, l.actor, s.actors[l.actor], l.choice);
        if l.actor == i {
          OutsideStays(cfg, s.g, i, s.actors[i], l.choice);
        }
      }
      ClosedServesNobody(cfg, Step(cfg, s, l), i, labels[1..]);
    }
  }

  // ---- the floor ---------------------------------------------------------------------

  /** The ceiling a resize under way is to publish is not below MinConns. */
  predicate AboveMin(cfg: Config, pc: PC) {
    if pc.Resizing? then pc.n >= cfg.minConns else InCritical(pc) ==> Target(pc) >= cfg.minConns
  }

  lemma HoldingKeepsMin(cfg: Config, g: Shared, c: Conn, sh: nat, hold: HoldPc, ch: Choice)
    requires Shaped(g) && g.maxConns >= cfg.minConns && AboveMin(cfg, Holding(c, sh, hold))
    ensures var (g', pc') := HoldStep(g, c, sh, hold, ch); g'.maxConns >= cfg.minConns && AboveMin(cfg, pc')
  {
  }

  lemma DestroyingKeepsMin(cfg: Config, g: Shared, pc: PC, ch: Choice)
    requires Shaped(g) && pc.Destroying? && g.maxConns >= cfg.minConns && AboveMin(cfg, pc)
    ensures var (g', pc') := DestroyStep(g, pc.cs, pc.why, pc.back, pc.des, ch);
      g'.maxConns >= cfg.minConns && AboveMin(cfg, pc')
  {
  }

  lemma LocalKeepsMin(cfg: Config, g: Shared, me: nat, pc: PC, ch: Choice)
    requires Shaped(g) && g.maxConns >= cfg.minConns && AboveMin(cfg, pc)
    ensures var (g', pc') := Local(cfg, g, me, pc, ch); g'.maxConns >= cfg.minConns && AboveMin(cfg, pc')
  {
    if pc.Holding? {
      HoldingKeepsMin(cfg, g, pc.c, pc.sh, pc.hold, ch);
    } else if pc.Destroying? {
      DestroyingKeepsMin(cfg, g, pc, ch);
    }
  }

  lemma {:induction false} RunKeepsMin(cfg: Config, s: State, labels: seq<Label>)
    requires Shaped(s.g) && s.g.maxConns >= cfg.minConns && forall pc :: pc in s.actors ==> AboveMin(cfg, pc)
    ensures Run(cfg, s, labels).g.maxConns >= cfg.minConns
    decreases |labels|
  {
    if labels != [] {
      var l := labels[0];
      if l.actor < |s.actors| {
        LocalKeepsMin(cfg, s.g, l.actor, s.actors[l.actor], l.choice);
      }
      RunKeepsMin(cfg, Step(cfg, s, l), labels[1..]);
    }
  }

  /** Whatever SetMaxConns is asked for, the ceiling is never below MinConns. */
  lemma CeilingKeepsMin(cfg: Config, callers: nat, labels: seq<Label>)
    requires cfg.minConns <= cfg.maxConns
    ensures Run(cfg, Init(cfg, callers), labels).g.maxConns >= cfg.minConns
  {
    RunKeepsMin(cfg, Init(cfg, callers), labels);
  }
}
