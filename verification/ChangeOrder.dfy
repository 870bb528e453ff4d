/** Commit order: the in-place insertion sort over what every capture instance returned,
    and why a stable sort is the only one it can be. */
module ChangeOrder {
  import opened Lsn
  import opened Sequences

  /** What a change is ordered by: its transaction, and its place in it. */
  datatype Key = Key(lsn: Lsn, seqval: Lsn)

  predicate Less(a: Key, b: Key) {
    var c := Compare(a.lsn, b.lsn);
    if c != 0 then c < 0 else Compare(a.seqval, b.seqval) < 0
  }

  lemma LessIsTotal(a: Key, b: Key)
    ensures a == b || Less(a, b) || Less(b, a)
    ensures Less(a, b) ==> !Less(b, a) && a != b
  {
    CompareIsAntisymmetric(a.lsn, b.lsn);
    CompareIsAntisymmetric(a.seqval, b.seqval);
  }

  lemma LessIsTransitive(a: Key, b: Key, c: Key)
    requires !Less(b, a) && !Less(c, b)
    ensures !Less(c, a)
  {
    LessIsTotal(a, b);
    LessIsTotal(b, c);
    LessIsTotal(a, c);
    CompareIsAntisymmetric(a.lsn, b.lsn);
    CompareIsAntisymmetric(b.lsn, c.lsn);
    if a != b && b != c {
      CompareIsTransitive(a.lsn, b.lsn, c.lsn);
      if a.lsn == b.lsn == c.lsn {
        CompareIsTransitive(a.seqval, b.seqval, c.seqval);
      }
      CompareIsAntisymmetric(a.lsn, c.lsn);
      CompareIsAntisymmetric(a.seqval, c.seqval);
    }
  }

  // ---- stable orders ----------------------------------------------------------------

  ghost predicate Ordered<T>(s: seq<T>, key: T -> Key) {
    forall i, j :: 0 <= i < j < |s| ==> !Less(key(s[j]), key(s[i]))
  }

  /** The changes with key k, in the order they stand. */
  function Of<T>(s: seq<T>, key: T -> Key, k: Key): seq<T> {
    if s == [] then [] else (if key(s[0]) == k then [s[0]] else []) + Of(s[1..], key, k)
  }

  lemma {:induction false} OfConcat<T>(s: seq<T>, t: seq<T>, key: T -> Key, k: Key)
    ensures Of(s + t, key, k) == Of(s, key, k) + Of(t, key, k)
  {
    if s == [] {
      assert s + t == t;
    } else {
      var all, first := s + t, if key(s[0]) == k then [s[0]] else [];
      assert all[0] == s[0] && all[1..] == s[1..] + t;
      OfConcat(s[1..], t, key, k);
      assert Of(all, key, k) == first + Of(all[1..], key, k);
      Joined(first, Of(s[1..], key, k), Of(t, key, k));
    }
  }

  lemma {:induction false} OfMember<T>(s: seq<T>, key: T -> Key, k: Key)
    ensures forall x :: x in Of(s, key, k) <==> x in s && key(x) == k
  {
    if s != [] {
      OfMember(s[1..], key, k);
      assert s == [s[0]] + s[1..];
    }
  }

  /** Two sequences with the same changes under every key: one is a rearrangement of the
      other that keeps changes of one key in place relative to each other. */
  ghost predicate Rearranged<T>(s: seq<T>, t: seq<T>, key: T -> Key) {
    forall k: Key :: Of(s, key, k) == Of(t, key, k)
  }

  lemma FirstIsLeast<T>(s: seq<T>, t: seq<T>, key: T -> Key)
    requires s != [] && t != [] && Ordered(s, key) && Rearranged(s, t, key)
    ensures !Less(key(t[0]), key(s[0]))
  {
    var k := key(t[0]);
    OfMember(t, key, k);
    OfMember(s, key, k);
    assert t[0] in Of(t, key, k);
    assert t[0] in Of(s, key, k);
    var i :| 0 <= i < |s| && s[i] == t[0];
    LessIsTotal(k, k);
  }

  /** The stable order is unique. */
  lemma {:induction false} StableOrderIsUnique<T>(s: seq<T>, t: seq<T>, key: T -> Key)
    requires Ordered(s, key) && Ordered(t, key) && Rearranged(s, t, key)
    ensures s == t
  {
    if s == [] || t == [] {
      assert t != [] ==> Of(s, key, key(t[0])) == Of(t, key, key(t[0]));
      assert s != [] ==> Of(s, key, key(s[0])) == Of(t, key, key(s[0]));
    } else {
      FirstIsLeast(s, t, key);
      FirstIsLeast(t, s, key);
      LessIsTotal(key(s[0]), key(t[0]));
      var k := key(s[0]);
      assert Of(s, key, k)[0] == s[0] && Of(t, key, k)[0] == t[0];
      assert Of(s, key, k) == Of(t, key, k);
      forall q: Key ensures Of(s[1..], key, q) == Of(t[1..], key, q) {
        assert Of(s, key, q) == Of(t, key, q);
        var head := if k == q then [s[0]] else [];
        assert Of(s, key, q)[|head|..] == Of(s[1..], key, q);
        assert Of(t, key, q)[|head|..] == Of(t[1..], key, q);
      }
      StableOrderIsUnique(s[1..], t[1..], key);
      assert s == [s[0]] + s[1..] && t == [t[0]] + t[1..];
    }
  }

  // ---- the insertion sort -----------------------------------------------------------

  /** x after everything that is not greater, from the right. */
  function Insert<T>(s: seq<T>, x: T, key: T -> Key): seq<T>
    decreases |s|
  {
    if s != [] && Less(key(x), key(s[|s| - 1])) then Insert(s[..|s| - 1], x, key) + [s[|s| - 1]] else s + [x]
  }

  function StableSort<T>(s: seq<T>, key: T -> Key): seq<T>
    decreases |s|
  {
    if s == [] then [] else Insert(StableSort(s[..|s| - 1], key), s[|s| - 1], key)
  }

  lemma {:induction false} InsertKeepsOf<T>(s: seq<T>, x: T, key: T -> Key, k: Key)
    ensures Of(Insert(s, x, key), key, k) == Of(s, key, k) + (if key(x) == k then [x] else [])
    decreases |s|
  {
    if s != [] && Less(key(x), key(s[|s| - 1])) {
      var front, last := s[..|s| - 1], s[|s| - 1];
      InsertKeepsOf(front, x, key, k);
      LessIsTotal(key(x), key(last));
      OfConcat(Insert(front, x, key), [last], key, k);
      OfConcat(front, [last], key, k);
      assert s == front + [last];
    } else {
      OfConcat(s, [x], key, k);
    }
  }

  lemma {:induction false} InsertMember<T>(s: seq<T>, x: T, key: T -> Key, y: T)
    requires y in Insert(s, x, key)
    ensures y in s || y == x
    decreases |s|
  {
    if s != [] && Less(key(x), key(s[|s| - 1])) {
      var front, last := s[..|s| - 1], s[|s| - 1];
      if y != last {
        InsertMember(front, x, key, y);
      }
    }
  }

  lemma {:induction false} InsertKeepsOrder<T>(s: seq<T>, x: T, key: T -> Key)
    requires Ordered(s, key)
    ensures Ordered(Insert(s, x, key), key)
    decreases |s|
  {
    if s != [] && Less(key(x), key(s[|s| - 1])) {
      var front, last := s[..|s| - 1], s[|s| - 1];
      InsertKeepsOrder(front, x, key);
      LessIsTotal(key(x), key(last));
      forall y | y in Insert(front, x, key) ensures !Less(key(last), key(y)) {
        InsertMember(front, x, key, y);
        if y in front {
          var i :| 0 <= i < |front| && front[i] == y;
          assert s[i] == y && !Less(key(s[|s| - 1]), key(s[i]));
        }
      }
    } else {
      forall i | 0 <= i < |s| ensures !Less(key(x), key(s[i])) {
        if i < |s| - 1 {
          LessIsTransitive(key(s[i]), key(s[|s| - 1]), key(x));
        }
      }
    }
  }

  /** The sort puts the changes in commit order, and loses, invents and reorders none
      within a key. */
  lemma {:induction false} StableSortIsOrdered<T>(s: seq<T>, key: T -> Key)
    ensures Ordered(StableSort(s, key), key)
    decreases |s|
  {
    if s != [] {
      StableSortIsOrdered(s[..|s| - 1], key);
      InsertKeepsOrder(StableSort(s[..|s| - 1], key), s[|s| - 1], key);
    }
  }

  lemma {:induction false} StableSortKeepsOf<T>(s: seq<T>, key: T -> Key, k: Key)
    ensures Of(StableSort(s, key), key, k) == Of(s, key, k)
    decreases |s|
  {
    if s != [] {
      var front, last := s[..|s| - 1], s[|s| - 1];
      StableSortKeepsOf(front, key, k);
      InsertKeepsOf(StableSort(front, key), last, key, k);
      OfConcat(front, [last], key, k);
      assert s == front + [last];
    }
  }

  /** Any rearrangement in commit order that keeps each key's changes in place is the one
      the sort computes. */
  lemma StableSortIs<T>(s: seq<T>, t: seq<T>, key: T -> Key)
    requires Ordered(t, key) && Rearranged(s, t, key)
    ensures StableSort(s, key) == t
  {
    StableSortIsOrdered(s, key);
    forall k: Key ensures Of(StableSort(s, key), key, k) == Of(t, key, k) {
      StableSortKeepsOf(s, key, k);
      assert Of(s, key, k) == Of(t, key, k);
    }
    StableOrderIsUnique(StableSort(s, key), t, key);
  }

  lemma {:induction false} InsertLength<T>(s: seq<T>, x: T, key: T -> Key)
    ensures |Insert(s, x, key)| == |s| + 1
    decreases |s|
  {
    if s != [] {
      InsertLength(s[..|s| - 1], x, key);
    }
  }

  lemma {:induction false} StableSortLength<T>(s: seq<T>, key: T -> Key)
    ensures |StableSort(s, key)| == |s|
    decreases |s|
  {
    if s != [] {
      StableSortLength(s[..|s| - 1], key);
      InsertLength(StableSort(s[..|s| - 1], key), s[|s| - 1], key);
    }
  }

  /** Insert puts x right behind the last element that is not greater. */
  lemma {:induction false} InsertAt<T>(s: seq<T>, x: T, key: T -> Key, j: nat)
    requires j <= |s| && (j > 0 ==> !Less(key(x), key(s[j - 1])))
    requires forall q :: j <= q < |s| ==> Less(key(x), key(s[q]))
    ensures Insert(s, x, key) == s[..j] + [x] + s[j..]
    decreases |s|
  {
    if j == |s| {
      assert s[..j] == s && s[j..] == [] && s + [x] + [] == s + [x];
    } else {
      var front, last := s[..|s| - 1], s[|s| - 1];
      InsertAt(front, x, key, j);
      assert front[..j] == s[..j] && s[j..] == front[j..] + [last];
      Joined(s[..j] + [x], front[j..], [last]);
    }
  }

  lemma Assembled<T>(s: seq<T>, front: seq<T>, x: T, j: nat)
    requires |s| == |front| + 1 && j <= |front| && s[j] == x
    requires forall q :: 0 <= q < j ==> s[q] == front[q]
    requires forall q :: j <= q < |front| ==> s[q + 1] == front[q]
    ensures s == front[..j] + [x] + front[j..]
  {
    var all := front[..j] + [x] + front[j..];
    forall q | 0 <= q < |s| ensures s[q] == all[q] {
      if q > j {
        var p := q - 1;
        assert s[p + 1] == front[p];
      }
    }
  }

  /** The inner loop of orderChanges: a[i] is swapped left past everything greater. */
  method Sink<T>(a: array<T>, i: nat, key: T -> Key)
    requires i < a.Length
    modifies a
    ensures a[..i + 1] == Insert(old(a[..i]), old(a[i]), key)
    ensures a[i + 1..] == old(a[i + 1..])
  {
    ghost var front, x := a[..i], a[i];
    var j := i;
    while j > 0 && Less(key(a[j]), key(a[j - 1]))
      invariant j <= i && a[j] == x
      invariant forall q :: 0 <= q < j ==> a[q] == front[q]
      invariant forall q :: j <= q < i ==> a[q + 1] == front[q] && Less(key(x), key(front[q]))
      invariant forall q :: i < q < a.Length ==> a[q] == old(a[q])
    {
      a[j], a[j - 1] := a[j - 1], a[j];
      j := j - 1;
    }
    InsertAt(front, x, key, j);
    Assembled(a[..i + 1], front, x, j);
  }

  /** orderChanges: sorts the batch in place. */
  method OrderChanges<T>(a: array<T>, key: T -> Key)
    modifies a
    ensures a[..] == StableSort(old(a[..]), key)
  {
    ghost var was := a[..];
    var i := 1;
    OneIsSorted(was, key);
    while i < a.Length
      invariant 1 <= i && (a.Length == 0 || i <= a.Length)
      invariant a.Length > 0 ==> a[..i] == StableSort(was[..i], key)
      invariant a.Length > 0 ==> a[i..] == was[i..]
    {
      assert was[..i + 1][..i] == was[..i];
      assert a[i] == a[i..][0] == was[i..][0] == was[i];
      assert a[i + 1..] == a[i..][1..] && was[i + 1..] == was[i..][1..];
      Sink(a, i, key);
      i := i + 1;
    }
    assert was[..a.Length] == was && a[..a.Length] == a[..];
  }

  lemma OneIsSorted<T>(s: seq<T>, key: T -> Key)
    ensures s != [] ==> StableSort(s[..1], key) == s[..1]
  {
    if s != [] {
      assert s[..1][..0] == [];
    }
  }
}
