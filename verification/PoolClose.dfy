/** Close is complete when its drain reclaims every permit. */
module PoolClose {
  import opened Options
  import opened Sums
  import opened Partition
  import opened PoolProtocol
  import opened Striping
  import opened PoolInvariant

  /** Calls SetMaxConns or EvictIdle that got past their closed check. */
  predicate Administers(pc: PC) {
    pc.Resizing? || InCritical(pc) || (pc.Sweeping? && pc.kind.Evicting?) ||
    (pc.Destroying? && pc.back.ToSweep? && pc.back.kind.Evicting?)
  }

  /** Close is about to sweep the shards having reclaimed every permit there is. */
  ghost predicate DrainedAll(s: State, i: nat) {
    && i < |s.actors| && s.actors[i] == Sweeping(Draining(s.g.maxConns), 0)
    && s.g.debt == 0
    && forall j :: 0 <= j < |s.actors| ==> !Administers(s.actors[j])
  }

  /** Nothing left to return: such an actor owns no connection, slot or permit, and once
      the pool is closed and the permits are gone it can never come to. */
  predicate Spent(pc: PC) {
    pc.Idle? || pc.Waiting? || pc == Maintaining(Retired)
  }

  /** How far the final sweep is: the shards behind it. */
  function SweptTo(pc: PC): nat {
    if pc.Sweeping? then pc.k else if pc.Destroying? && pc.back.ToSweep? then pc.back.k else SHARDS
  }

  ghost predicate Sealed(s: State, i: nat) {
    && Shaped(s.g) && i < |s.actors|
    && s.g.closed && s.g.tokens == 0 && s.g.closer == Some(i)
    && InFinalSweep(s.actors[i])
    && (forall j :: 0 <= j < |s.actors| && j != i ==> Spent(s.actors[j]))
    && (forall k :: 0 <= k < SweptTo(s.actors[i]) && k < SHARDS ==> s.g.shards[k] == [])
  }

  /** A reclaimed permit set leaves nobody with anything to release. */
  lemma DrainSeals(cfg: Config, s: State, i: nat)
    requires Inv(cfg, s) && DrainedAll(s, i)
    ensures Sealed(s, i)
  {
    var others := s.actors[i := Idle];
    SumUpdate(s.actors, Permits, i, Idle);
    SumNonNegative(others, Permits);
    assert Knows(cfg, s.g, i, s.actors[i]);
    forall pc | pc in s.actors ensures Unfinished(pc) == 0 {
      var j :| 0 <= j < |s.actors| && s.actors[j] == pc;
      assert !Administers(s.actors[j]);
    }
    SumIsZero(s.actors, Unfinished);
    assert s.g.resizer.None?;
    assert s.g.tokens + Sum(others, Permits) == 0;
    forall j | 0 <= j < |s.actors| && j != i ensures Spent(s.actors[j]) {
      assert others[j] == s.actors[j];
      SumAtLeast(others, Permits, j);
      assert Knows(cfg, s.g, j, s.actors[j]);
      OthersAreSpent(cfg, s.g, i, j, s.actors[j]);
    }
  }

  lemma OthersAreSpent(cfg: Config, g: Shared, i: nat, j: nat, pc: PC)
    requires Knows(cfg, g, j, pc) && i != j && g.closer == Some(i) && g.bgDone
    requires Permits(pc) == 0 && !Administers(pc)
    ensures Spent(pc)
  {
  }

  lemma SealedStep(cfg: Config, s: State, i: nat, l: Label)
    requires Sealed(s, i)
    ensures Sealed(Step(cfg, s, l), i)
    ensures forall k :: 0 <= k < SHARDS ==> |Step(cfg, s, l).g.shards[k]| <= |s.g.shards[k]|
  {
    if l.actor == i && s.actors[i].Sweeping? && s.actors[i].k < SHARDS {
      var k := s.actors[i].k;
      AllTaken(s.g.shards[k], Chosen(s.actors[i].kind, l.choice));
    }
  }

  lemma {:induction false} SealedRun(cfg: Config, s: State, i: nat, labels: seq<Label>)
    requires Sealed(s, i)
    ensures Sealed(Run(cfg, s, labels), i)
    ensures forall k :: 0 <= k < SHARDS ==> |Run(cfg, s, labels).g.shards[k]| <= |s.g.shards[k]|
    decreases |labels|
  {
    if labels != [] {
      SealedStep(cfg, s, i, labels[0]);
      SealedRun(cfg, Step(cfg, s, labels[0]), i, labels[1..]);
    }
  }

  /** When Close returns after a drain that got every permit back, with nobody resizing
      or evicting, every shard is empty and no connection is counted; and whatever the
      others do from the end of the drain on, no shard ever gains a connection. */
  lemma CloseIsComplete(cfg: Config, callers: nat, before: seq<Label>, after: seq<Label>, i: nat)
    requires ValidConfig(cfg) && DrainedAll(Run(cfg, Init(cfg, callers), before), i)
    ensures var s := Run(cfg, Init(cfg, callers), before);
            forall k :: 0 <= k < SHARDS ==> |Run(cfg, s, after).g.shards[k]| <= |s.g.shards[k]|
    ensures var t := Run(cfg, Run(cfg, Init(cfg, callers), before), after);
            t.actors[i].Shutting? ==>
              && t.g.total == 0
              && (forall k :: 0 <= k < SHARDS ==> t.g.shards[k] == [])
              && |t.g.dead| == t.g.next
  {
    InitInv(cfg, callers);
    RunKeepsInv(cfg, Init(cfg, callers), before);
    var s := Run(cfg, Init(cfg, callers), before);
    DrainSeals(cfg, s, i);
    SealedRun(cfg, s, i, after);
    RunKeepsInv(cfg, s, after);
    var t := Run(cfg, s, after);
    if t.actors[i].Shutting? {
      SumIsZero(t.g.shards, Length);
      SumIsZero(t.actors, Slots);
      AllClosed(cfg, t);
    }
  }

  /** With nothing idle and nothing owned, the closed connections are the dialled ones. */
  lemma AllClosed(cfg: Config, s: State)
    requires Inv(cfg, s)
    requires (forall k :: 0 <= k < SHARDS ==> s.g.shards[k] == []) && (forall pc :: pc in s.actors ==> Slots(pc) == 0)
    ensures |s.g.dead| == s.g.next
  {
    forall c: Conn ensures Occurs(s.g.dead, c) == if c < s.g.next then 1 else 0 {
      SumIsZero(s.g.shards, InShard(c));
      SumIsZero(s.actors, Owns(c));
      assert Places(s, c) == if c < s.g.next then 1 else 0;
    }
    OnceEachCounts(s.g.dead, s.g.next);
  }

  function Without(xs: seq<Conn>, c: Conn): seq<Conn> {
    if xs == [] then [] else (if xs[0] == c then [] else [xs[0]]) + Without(xs[1..], c)
  }

  lemma {:induction false} WithoutOccurs(xs: seq<Conn>, c: Conn)
    ensures |Without(xs, c)| == |xs| - Occurs(xs, c)
    ensures forall d: Conn :: Occurs(Without(xs, c), d) == if d == c then 0 else Occurs(xs, d)
  {
    if xs != [] {
      WithoutOccurs(xs[1..], c);
      var head := if xs[0] == c then [] else [xs[0]];
      forall d: Conn ensures Occurs(Without(xs, c), d) == if d == c then 0 else Occurs(xs, d) {
        OccursAppend(head, Without(xs[1..], c), d);
      }
    }
  }

  lemma {:induction false} OnceEachCounts(xs: seq<Conn>, n: nat)
    requires forall c: Conn :: Occurs(xs, c) == if c < n then 1 else 0
    ensures |xs| == n
    decreases n
  {
    if n == 0 {
      assert xs != [] ==> Occurs(xs, xs[0]) == 0;
    } else {
      WithoutOccurs(xs, n - 1);
      OnceEachCounts(Without(xs, n - 1), n - 1);
    }
  }
}
