/** The lock-striped idle buckets: the shard, and popIdle's probe over all of them. */
module Shards {
  import opened Options
  import opened Partition
  import opened Striping

  /** One bucket. count mirrors the number of connections. */
  class Shard<T(0)> {
    var conns: seq<T>
    var count: nat

    ghost predicate Valid()
      reads this
    {
      count == |conns|
    }

    constructor ()
      ensures Valid() && conns == []
    {
      conns, count := [], 0;
    }

    /** The most recently released connection, if any. */
    method Pop() returns (ic: Option<T>)
      requires Valid()
      modifies this
      ensures Valid()
      ensures old(conns) == [] ==> ic == None && conns == []
      ensures old(conns) != [] ==> ic.Some? && conns + [ic.value] == old(conns)
    {
      if count == 0 {
        return None;
      }
      var last := |conns| - 1;
      ic := Some(conns[last]);
      conns := conns[..last];
      count := |conns|;
    }

    method Push(ic: T)
      modifies this
      ensures Valid() && conns == old(conns) + [ic]
    {
      conns := conns + [ic];
      count := |conns|;
    }

    /** Removes what matches. The survivors are compacted to the front of the storage
        being scanned, so the write index must never pass the read index. */
    method TakeIf(matches: T -> bool) returns (taken: seq<T>)
      requires Valid()
      modifies this
      ensures Valid()
      ensures taken == Taken(old(conns), matches) && conns == Kept(old(conns), matches)
    {
      taken := [];
      if count == 0 {
        return;
      }
      ghost var was := conns;
      var kept := 0;
      var n := |conns|;
      for r := 0 to n
        invariant |conns| == n == |was| && kept <= r
        invariant conns[r..] == was[r..]
        invariant conns[..kept] == Kept(was[..r], matches) && taken == Taken(was[..r], matches)
      {
        var ic := conns[r];
        ghost var before := conns;
        assert ic == before[r..][0] == was[r..][0] == was[r];
        assert was[..r + 1] == was[..r] + [ic];
        assert before[r + 1..] == before[r..][1..] == was[r..][1..] == was[r + 1..];
        PartitionAppend(was[..r], ic, matches);
        if matches(ic) {
          taken := taken + [ic];
          assert conns[..kept] == Kept(was[..r], matches) + [];
        } else {
          conns := conns[kept := ic];
          assert conns[..kept + 1] == before[..kept] + [ic];
          assert conns[r + 1..] == before[r + 1..];
          kept := kept + 1;
        }
      }
      assert was[..n] == was;
      conns := conns[..kept];
      count := |conns|;
    }

    method Drain() returns (all: seq<T>)
      modifies this
      ensures Valid() && conns == [] && all == old(conns)
    {
      all := conns;
      conns, count := [], 0;
    }
  }

  /** What popping one shard until a usable connection appears leaves: the connection,
      the rest of the shard, and what was destroyed on the way. */
  datatype Popped<T> = Popped(found: Option<T>, rest: seq<T>, destroyed: seq<T>)

  function PopShard<T>(conns: seq<T>, usable: T -> bool): Popped<T>
    decreases |conns|
  {
    if conns == [] then Popped(None, [], [])
    else
      var last, front := conns[|conns| - 1], conns[..|conns| - 1];
      if usable(last) then Popped(Some(last), front, [])
      else var p := PopShard(front, usable); p.(destroyed := [last] + p.destroyed)
  }

  datatype Probed<T> = Probed(found: Option<(T, nat)>, view: seq<seq<T>>, destroyed: seq<T>)

  /** The probe from its k-th shard on, wrapping around. */
  function ProbeFrom<T>(view: seq<seq<T>>, start: nat, k: nat, usable: T -> bool): Probed<T>
    requires |view| == SHARDS && k <= SHARDS
    decreases SHARDS - k
  {
    if k == SHARDS then Probed(None, view, [])
    else
      var i := ShardAt(start, k);
      var p := PopShard(view[i], usable);
      var after := view[i := p.rest];
      if p.found.Some? then Probed(Some((p.found.value, i)), after, p.destroyed)
      else var q := ProbeFrom(after, start, k + 1, usable); q.(destroyed := p.destroyed + q.destroyed)
  }

  lemma {:induction false} PopShardOutcome<T>(conns: seq<T>, usable: T -> bool)
    ensures var p := PopShard(conns, usable);
      && (forall x :: x in p.destroyed ==> !usable(x) && x in conns)
      && (p.found.Some? ==> usable(p.found.value) && |p.rest| + 1 + |p.destroyed| == |conns| && p.rest < conns
                            && p.found.value == conns[|p.rest|])
      && (p.found.None? ==> p.rest == [] && |p.destroyed| == |conns| && forall x :: x in conns ==> !usable(x))
    decreases |conns|
  {
    if conns != [] {
      var last, front := conns[|conns| - 1], conns[..|conns| - 1];
      assert conns == front + [last];
      if !usable(last) {
        PopShardOutcome(front, usable);
      }
    }
  }

  ghost predicate HasUsable<T>(view: seq<seq<T>>, usable: T -> bool) {
    exists i, x :: 0 <= i < |view| && x in view[i] && usable(x)
  }

  /** After a miss every shard has been emptied. */
  lemma {:induction false} MissEmptiesAll<T>(view: seq<seq<T>>, start: nat, k: nat, usable: T -> bool)
    requires |view| == SHARDS && k <= SHARDS
    requires forall q :: 0 <= q < k ==> view[ShardAt(start, q)] == []
    ensures var p := ProbeFrom(view, start, k, usable);
      |p.view| == SHARDS && (p.found.None? ==> forall i :: 0 <= i < SHARDS ==> p.view[i] == [])
    decreases SHARDS - k
  {
    if k == SHARDS {
      forall i | 0 <= i < SHARDS ensures view[i] == [] {
        TurnIsProbed(start, i, Turn(i, start));
      }
    } else {
      var i := ShardAt(start, k);
      PopShardOutcome(view[i], usable);
      var p := PopShard(view[i], usable);
      if p.found.None? {
        MissEmptiesAll(view[i := p.rest], start, k + 1, usable);
      }
    }
  }

  /** Only unusable connections are destroyed, only a usable one is returned, and one is
      returned whenever a shard still to be probed has one. */
  lemma {:induction false} ProbeOutcome<T>(view: seq<seq<T>>, start: nat, k: nat, usable: T -> bool)
    requires |view| == SHARDS && k <= SHARDS
    requires forall q :: 0 <= q < k ==> view[ShardAt(start, q)] == []
    ensures var p := ProbeFrom(view, start, k, usable);
      && (forall x :: x in p.destroyed ==> !usable(x))
      && (p.found.Some? ==>
        p.found.value.1 < SHARDS && usable(p.found.value.0) && p.found.value.0 in view[p.found.value.1])
      && (p.found.None? ==> !HasUsable(view, usable))
    decreases SHARDS - k
  {
    if k == SHARDS {
      MissEmptiesAll(view, start, k, usable);
    } else {
      var i := ShardAt(start, k);
      PopShardOutcome(view[i], usable);
      var p := PopShard(view[i], usable);
      if p.found.None? {
        var after := view[i := p.rest];
        ProbeOutcome(after, start, k + 1, usable);
        forall j, x | 0 <= j < SHARDS && x in view[j] && usable(x) ensures HasUsable(after, usable) {
          assert x in after[j];
        }
      }
    }
  }

  /** A probe that will end in goal has reached its k-th shard, having destroyed gone. */
  ghost predicate Continues<T>(goal: Probed<T>, view: seq<seq<T>>, start: nat, k: nat, usable: T -> bool, gone: seq<T>)
    requires |view| == SHARDS && k <= SHARDS
  {
    var q := ProbeFrom(view, start, k, usable);
    goal == Probed(q.found, q.view, gone + q.destroyed)
  }

  lemma ProbeStarts<T>(goal: Probed<T>, view: seq<seq<T>>, start: nat, usable: T -> bool)
    requires |view| == SHARDS && goal == ProbeFrom(view, start, 0, usable)
    ensures Continues(goal, view, start, 0, usable, [])
  {
    assert [] + goal.destroyed == goal.destroyed;
  }

  lemma ProbeContinues<T>(goal: Probed<T>, view: seq<seq<T>>, start: nat, k: nat, usable: T -> bool, gone: seq<T>)
    requires |view| == SHARDS && k < SHARDS && Continues(goal, view, start, k, usable, gone)
    ensures var p := PopShard(view[ShardAt(start, k)], usable); var after := view[ShardAt(start, k) := p.rest];
      if p.found.Some? then goal == Probed(Some((p.found.value, ShardAt(start, k))), after, gone + p.destroyed)
      else Continues(goal, after, start, k + 1, usable, gone + p.destroyed)
  {
    var p := PopShard(view[ShardAt(start, k)], usable);
    if p.found.None? {
      var q := ProbeFrom(view[ShardAt(start, k) := p.rest], start, k + 1, usable);
      assert gone + (p.destroyed + q.destroyed) == (gone + p.destroyed) + q.destroyed;
    }
  }

  lemma ProbeAdvances<T>(goal: Probed<T>, view: seq<seq<T>>, after: seq<seq<T>>, start: nat, k: nat,
                         usable: T -> bool, gone: seq<T>, ic: Option<T>, unusable: seq<T>)
    requires |view| == |after| == SHARDS && k < SHARDS && Continues(goal, view, start, k, usable, gone)
    requires var i := ShardAt(start, k);
      after == view[i := after[i]] && PopShard(view[i], usable) == Popped(ic, after[i], unusable)
    ensures if ic.Some? then goal == Probed(Some((ic.value, ShardAt(start, k))), after, gone + unusable)
            else Continues(goal, after, start, k + 1, usable, gone + unusable)
  {
    ProbeContinues(goal, view, start, k, usable, gone);
  }

  lemma ProbeMisses<T>(goal: Probed<T>, view: seq<seq<T>>, start: nat, usable: T -> bool, gone: seq<T>)
    requires |view| == SHARDS && Continues(goal, view, start, SHARDS, usable, gone)
    ensures goal == Probed(None, view, gone)
  {
    assert gone + [] == gone;
  }

  /** The sixteen shards. */
  class IdleSet<T(0)> {
    const shards: seq<Shard<T>>

    ghost predicate Valid()
      reads shards
    {
      && |shards| == SHARDS
      && (forall i, j :: 0 <= i < j < SHARDS ==> shards[i] != shards[j])
      && (forall i :: 0 <= i < SHARDS ==> shards[i].Valid())
    }

    ghost function View(): (v: seq<seq<T>>)
      reads shards
      ensures |v| == |shards| && forall i :: 0 <= i < |shards| ==> v[i] == shards[i].conns
    {
      seq(|shards|, i requires 0 <= i < |shards| reads shards => shards[i].conns)
    }

    /** Pops one shard until a usable connection appears; the others are destroyed. */
    method PopUsable(s: Shard<T>, usable: T -> bool) returns (found: Option<T>, destroyed: seq<T>)
      requires s.Valid()
      modifies s
      ensures s.Valid() && PopShard(old(s.conns), usable) == Popped(found, s.conns, destroyed)
    {
      destroyed := [];
      while true
        invariant s.Valid()
        invariant var p := PopShard(s.conns, usable);
                  PopShard(old(s.conns), usable) == Popped(p.found, p.rest, destroyed + p.destroyed)
        decreases |s.conns|
      {
        ghost var conns := s.conns;
        found := s.Pop();
        if found.None? {
          return;
        }
        assert conns[|conns| - 1] == found.value && conns[..|conns| - 1] == s.conns;
        if usable(found.value) {
          return;
        }
        destroyed := destroyed + [found.value];
      }
    }

    /** Probes every shard from start round. It finds a connection exactly when a usable
        one is idle, destroys only unusable ones, and leaves every shard empty if it
        finds none. */
    method PopIdle(start: nat, usable: T -> bool) returns (found: Option<(T, nat)>, destroyed: seq<T>)
      requires Valid()
      modifies shards
      ensures Valid() && Probed(found, View(), destroyed) == ProbeFrom(old(View()), start, 0, usable)
      ensures found.Some? == HasUsable(old(View()), usable)
      ensures found.None? ==> forall i :: 0 <= i < SHARDS ==> View()[i] == []
    {
      ghost var goal := ProbeFrom(View(), start, 0, usable);
      ProbeOutcome(View(), start, 0, usable);
      MissEmptiesAll(View(), start, 0, usable);
      ProbeStarts(goal, View(), start, usable);
      found, destroyed := ProbeAll(start, usable, goal);
    }

    /** The same on one of the shards: the others are as they were. */
    method PopAt(i: nat, usable: T -> bool) returns (found: Option<T>, destroyed: seq<T>)
      requires Valid() && i < SHARDS
      modifies shards[i]
      ensures Valid() && PopShard(old(View())[i], usable) == Popped(found, View()[i], destroyed)
      ensures View() == old(View())[i := View()[i]]
    {
      found, destroyed := PopUsable(shards[i], usable);
      assert forall j :: 0 <= j < SHARDS && j != i ==> shards[j] != shards[i];
    }

    /** One lap of popIdle's loop. */
    method ProbeOne(start: nat, k: nat, usable: T -> bool, ghost goal: Probed<T>, ghost gone: seq<T>)
      returns (found: Option<(T, nat)>, unusable: seq<T>)
      requires Valid() && k < SHARDS && Continues(goal, View(), start, k, usable, gone)
      modifies shards
      ensures Valid() && if found.Some? then Probed(found, View(), gone + unusable) == goal
                         else Continues(goal, View(), start, k + 1, usable, gone + unusable)
    {
      var i := ShardAt(start, k);
      ghost var view := View();
      var ic;
      ic, unusable := PopAt(i, usable);
      ProbeAdvances(goal, view, View(), start, k, usable, gone, ic, unusable);
      found := if ic.Some? then Some((ic.value, i)) else None;
    }

    /** The loop of popIdle; goal is where the probe will end. */
    method ProbeAll(start: nat, usable: T -> bool, ghost goal: Probed<T>)
      returns (found: Option<(T, nat)>, destroyed: seq<T>)
      requires Valid() && Continues(goal, View(), start, 0, usable, [])
      modifies shards
      ensures Valid() && Probed(found, View(), destroyed) == goal
    {
      destroyed := [];
      for k := 0 to SHARDS
        invariant Valid() && Continues(goal, View(), start, k, usable, destroyed)
      {
        var ic, unusable := ProbeOne(start, k, usable, goal, destroyed);
        destroyed := destroyed + unusable;
        if ic.Some? {
          return ic, destroyed;
        }
      }
      ProbeMisses(goal, View(), start, usable, destroyed);
      found := None;
    }
  }
}
