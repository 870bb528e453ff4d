/** The two halves of a sequence under a predicate, in order. */
module Partition {
  import opened Sequences

  function Kept<T>(xs: seq<T>, matches: T -> bool): seq<T> {
    if xs == [] then [] else (if matches(xs[0]) then [] else [xs[0]]) + Kept(xs[1..], matches)
  }

  function Taken<T>(xs: seq<T>, matches: T -> bool): seq<T> {
    if xs == [] then [] else (if matches(xs[0]) then [xs[0]] else []) + Taken(xs[1..], matches)
  }

  /** Nothing is lost and nothing is duplicated. */
  lemma {:induction false} PartitionIsExact<T>(xs: seq<T>, matches: T -> bool)
    ensures multiset(Kept(xs, matches)) + multiset(Taken(xs, matches)) == multiset(xs)
  {
    if xs != [] {
      PartitionIsExact(xs[1..], matches);
      assert xs == [xs[0]] + xs[1..];
    }
  }

  lemma {:induction false} PartitionSizes<T>(xs: seq<T>, matches: T -> bool)
    ensures |Kept(xs, matches)| + |Taken(xs, matches)| == |xs|
  {
    if xs != [] {
      PartitionSizes(xs[1..], matches);
    }
  }

  /** Each half holds exactly the elements on its side of the predicate. */
  lemma {:induction false} PartitionSeparates<T>(xs: seq<T>, matches: T -> bool)
    ensures forall x :: x in Kept(xs, matches) <==> x in xs && !matches(x)
    ensures forall x :: x in Taken(xs, matches) <==> x in xs && matches(x)
  {
    if xs != [] {
      PartitionSeparates(xs[1..], matches);
    }
  }

  lemma {:induction false} KeptAppend<T>(xs: seq<T>, y: T, matches: T -> bool)
    ensures Kept(xs + [y], matches) == Kept(xs, matches) + (if matches(y) then [] else [y])
  {
    var all, last := xs + [y], if matches(y) then [] else [y];
    if xs == [] {
      assert all == [y] && all[1..] == [];
    } else {
      var head, rest := if matches(xs[0]) then [] else [xs[0]], Kept(xs[1..], matches);
      KeptAppend(xs[1..], y, matches);
      assert all[0] == xs[0] && all[1..] == xs[1..] + [y];
      assert Kept(all, matches) == head + (rest + last);
      Joined(head, rest, last);
    }
  }

  lemma {:induction false} TakenAppend<T>(xs: seq<T>, y: T, matches: T -> bool)
    ensures Taken(xs + [y], matches) == Taken(xs, matches) + (if matches(y) then [y] else [])
  {
    var all, last := xs + [y], if matches(y) then [y] else [];
    if xs == [] {
      assert all == [y] && all[1..] == [];
    } else {
      var head, rest := if matches(xs[0]) then [xs[0]] else [], Taken(xs[1..], matches);
      TakenAppend(xs[1..], y, matches);
      assert all[0] == xs[0] && all[1..] == xs[1..] + [y];
      assert Taken(all, matches) == head + (rest + last);
      Joined(head, rest, last);
    }
  }

  lemma {:induction false} PartitionAppend<T>(xs: seq<T>, y: T, matches: T -> bool)
    ensures Kept(xs + [y], matches) == Kept(xs, matches) + (if matches(y) then [] else [y])
    ensures Taken(xs + [y], matches) == Taken(xs, matches) + (if matches(y) then [y] else [])
  {
    KeptAppend(xs, y, matches);
    TakenAppend(xs, y, matches);
  }

  lemma {:induction false} AllTaken<T>(xs: seq<T>, matches: T -> bool)
    requires forall x :: matches(x)
    ensures Kept(xs, matches) == [] && Taken(xs, matches) == xs
  {
    if xs != [] {
      AllTaken(xs[1..], matches);
    }
  }

  lemma {:induction false} SamePartition<T>(xs: seq<T>, matches: T -> bool, other: T -> bool)
    requires forall x :: x in xs ==> matches(x) == other(x)
    ensures Kept(xs, matches) == Kept(xs, other) && Taken(xs, matches) == Taken(xs, other)
  {
    if xs != [] {
      SamePartition(xs[1..], matches, other);
    }
  }
}
