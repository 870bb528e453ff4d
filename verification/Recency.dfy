/** What the recency list means in terms of the run that made it: its order is the order of
    last use, so what is evicted is what has gone unused longest. */
module Recency {
  import opened Statements
  import opened StatementSet

  predicate Uses(use: Use, name: Name) {
    (use.Remember? || use.Lookup?) && use.name == name
  }

  /** When a statement was last remembered or looked up, counting from 1; 0 for never. */
  function LastUse(uses: seq<Use>, name: Name): nat
    decreases |uses|
  {
    if uses == [] then 0
    else if Uses(uses[|uses| - 1], name) then |uses|
    else LastUse(uses[..|uses| - 1], name)
  }

  /** The list is in the order of last use, and holds no unnamed statement. */
  ghost predicate Ranked(l: Lru, uses: seq<Use>) {
    && (forall i :: 0 <= i < |l| ==> l[i].name != [] && 0 < LastUse(uses, l[i].name) <= |uses|)
    && (forall i, j :: 0 <= i < j < |l| ==> LastUse(uses, l[i].name) < LastUse(uses, l[j].name))
  }

  lemma {:induction false} AfterOneMore(l: Lru, limit: int, uses: seq<Use>, use: Use)
    ensures After(l, limit, uses + [use]) == Used(After(l, limit, uses), limit, use)
    decreases |uses|
  {
    var all := uses + [use];
    if uses == [] {
      assert all == [use] && all[1..] == [];
      assert After(l, limit, all) == After(Used(l, limit, use), limit, []);
    } else {
      assert all[0] == uses[0] && all[1..] == uses[1..] + [use];
      AfterOneMore(Used(l, limit, uses[0]), limit, uses[1..], use);
    }
  }

  lemma LastUseOneMore(uses: seq<Use>, use: Use, name: Name)
    ensures LastUse(uses + [use], name) == if Uses(use, name) then |uses| + 1 else LastUse(uses, name)
  {
    assert (uses + [use])[..|uses|] == uses;
  }

  lemma {:induction false} DroppedIsRanked(l: Lru, uses: seq<Use>, use: Use)
    requires Ranked(l, uses)
    ensures Ranked(Dropped(l, use.name), uses + [use])
    ensures forall i :: 0 <= i < |Dropped(l, use.name)| ==>
      LastUse(uses + [use], Dropped(l, use.name)[i].name) <= |uses|
  {
    var r := Dropped(l, use.name);
    forall i | 0 <= i < |r| ensures r[i].name != [] && 0 < LastUse(uses + [use], r[i].name) <= |uses| {
      var j := DroppedComesFrom(l, use.name, i);
      LastUseOneMore(uses, use, l[j].name);
    }
    forall i, k | 0 <= i < k < |r| ensures LastUse(uses + [use], r[i].name) < LastUse(uses + [use], r[k].name) {
      var j, m := DroppedKeepsOrder(l, use.name, i, k);
      LastUseOneMore(uses, use, l[j].name);
      LastUseOneMore(uses, use, l[m].name);
    }
  }

  /** What is used goes to the back. */
  lemma AppendedIsRanked(l: Lru, uses: seq<Use>, use: Use, message: Message)
    requires Ranked(l, uses) && Uses(use, use.name) && use.name != []
    ensures Ranked(Dropped(l, use.name) + [Entry(use.name, message)], uses + [use])
  {
    DroppedIsRanked(l, uses, use);
    LastUseOneMore(uses, use, use.name);
  }

  lemma UsedIsRanked(l: Lru, limit: int, uses: seq<Use>, use: Use)
    requires Ranked(l, uses)
    ensures Ranked(Used(l, limit, use), uses + [use])
  {
    DroppedIsRanked(l, uses, use);
    if !Has(l, use.name) {
      NothingToDrop(l, use.name);
    }
    match use
    case Forget(_) =>
    case Lookup(n) =>
      if Has(l, n) {
        AppendedIsRanked(l, uses, use, Find(l, n).value);
      }
    case Remember(n, m) =>
      if n == [] {
        assert !Has(l, n);
      } else if limit > 0 && |l| >= limit && !Has(l, n) {
        var rest := l[1..];
        assert !Has(rest, n) by {
          assert forall i :: 0 <= i < |rest| ==> rest[i] == l[i + 1];
        }
        NothingToDrop(rest, n);
        AppendedIsRanked(rest, uses, use, m);
      } else {
        AppendedIsRanked(l, uses, use, m);
      }
  }

  lemma {:induction false} RunIsRanked(limit: int, uses: seq<Use>)
    ensures Ranked(After([], limit, uses), uses)
    decreases |uses|
  {
    if uses != [] {
      var front, last := uses[..|uses| - 1], uses[|uses| - 1];
      assert uses == front + [last];
      RunIsRanked(limit, front);
      AfterOneMore([], limit, front, last);
      UsedIsRanked(After([], limit, front), limit, front, last);
    }
  }

  /** Whatever a client has prepared, looked up and closed: a statement discarded to make
      room is the one that has gone unused longest. */
  lemma EvictedIsLeastRecentlyUsed(limit: int, uses: seq<Use>, name: Name, message: Message, other: Name)
    requires Remembered(After([], limit, uses), limit, name, message).1.Some? && Has(After([], limit, uses), other)
    ensures var evicted := Remembered(After([], limit, uses), limit, name, message).1.value;
      other == evicted || LastUse(uses, evicted) < LastUse(uses, other)
  {
    RunIsRanked(limit, uses);
  }
}
