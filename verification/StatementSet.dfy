/** The counter-stamped map behind a statement set, which behaves as the recency list. */
module StatementSet {
  import opened Options
  import opened Statements

  datatype Stamped = Stamped(message: Message, used: nat)

  /** l holds exactly the entries of m, in strictly increasing order of their stamps: no
      two stamps are equal and none is ahead of the counter. */
  ghost predicate Orders(l: Lru, m: map<Name, Stamped>, uses: nat) {
    && (forall i :: 0 <= i < |l| ==> l[i].name in m)
    && (forall i :: 0 <= i < |l| ==> m[l[i].name].message == l[i].message && m[l[i].name].used <= uses)
    && (forall i, j :: 0 <= i < j < |l| ==> m[l[i].name].used < m[l[j].name].used)
    && (forall n :: n in m ==> Has(l, n))
  }

  lemma StampsAreDistinct(l: Lru, m: map<Name, Stamped>, uses: nat)
    requires Orders(l, m, uses)
    ensures Distinct(l) && |m| == |l|
  {
    AsMapSize(l);
    forall n ensures n in m <==> n in AsMap(l) {
      AsMapIs(l, n);
    }
    assert m.Keys == AsMap(l).Keys;
  }

  lemma {:induction false} DroppedComesFrom(l: Lru, name: Name, i: nat) returns (j: nat)
    requires i < |Dropped(l, name)|
    ensures i <= j < |l| && Dropped(l, name)[i] == l[j] && l[j].name != name
  {
    if l[0].name == name {
      j := DroppedComesFrom(l[1..], name, i);
      j := j + 1;
    } else if i == 0 {
      j := 0;
    } else {
      j := DroppedComesFrom(l[1..], name, i - 1);
      j := j + 1;
    }
  }

  lemma {:induction false} DroppedKeepsOrder(l: Lru, name: Name, i: nat, k: nat) returns (j: nat, m: nat)
    requires i < k < |Dropped(l, name)|
    ensures j < m < |l| && Dropped(l, name)[i] == l[j] && Dropped(l, name)[k] == l[m]
    ensures l[j].name != name && l[m].name != name
  {
    if l[0].name == name {
      j, m := DroppedKeepsOrder(l[1..], name, i, k);
      j, m := j + 1, m + 1;
    } else if i == 0 {
      m := DroppedComesFrom(l[1..], name, k - 1);
      j, m := 0, m + 1;
    } else {
      j, m := DroppedKeepsOrder(l[1..], name, i - 1, k - 1);
      j, m := j + 1, m + 1;
    }
  }

  /** Deleting from the map is deleting from the list. */
  lemma {:induction false} ForgetOrders(l: Lru, m: map<Name, Stamped>, uses: nat, name: Name)
    requires Orders(l, m, uses)
    ensures Orders(Dropped(l, name), m - {name}, uses)
  {
    var d := Dropped(l, name);
    forall i | 0 <= i < |d|
      ensures d[i].name != name && d[i].name in m
      ensures m[d[i].name].message == d[i].message && m[d[i].name].used <= uses
    {
      var j := DroppedComesFrom(l, name, i);
    }
    forall i, k | 0 <= i < k < |d| ensures m[d[i].name].used < m[d[k].name].used {
      var j, j' := DroppedKeepsOrder(l, name, i, k);
    }
    forall n | n in m && n != name ensures Has(d, n) {
      FindDropped(l, name, n);
    }
  }

  lemma AppendOrders(l: Lru, m: map<Name, Stamped>, uses: nat, name: Name, message: Message)
    requires Orders(l, m, uses) && name !in m
    ensures Orders(l + [Entry(name, message)], m[name := Stamped(message, uses + 1)], uses + 1)
  {
    var r := l + [Entry(name, message)];
    assert r[|l|].name == name;
    forall n | n in m ensures Has(r, n) {
      var i :| 0 <= i < |l| && l[i].name == n;
      assert r[i].name == n;
    }
  }

  /** A fresh stamp is a move to the back. */
  lemma StampOrders(l: Lru, m: map<Name, Stamped>, uses: nat, name: Name, message: Message)
    requires Orders(l, m, uses)
    ensures Orders(Dropped(l, name) + [Entry(name, message)], m[name := Stamped(message, uses + 1)], uses + 1)
  {
    ForgetOrders(l, m, uses, name);
    AppendOrders(Dropped(l, name), m - {name}, uses, name, message);
    PutOverDropped(m, name, Stamped(message, uses + 1));
  }

  lemma OldestIsHead(l: Lru, m: map<Name, Stamped>, uses: nat, oldest: Name)
    requires Orders(l, m, uses) && oldest in m
    requires forall n :: n in m ==> m[oldest].used <= m[n].used
    ensures l != [] && l[0].name == oldest
  {
    var i :| 0 <= i < |l| && l[i].name == oldest;
  }

  class StatementSet {
    var byName: map<Name, Stamped>
    const limit: int
    var uses: nat
    /** What the map stands for, least recently used first. */
    ghost var recency: Lru

    ghost predicate Valid()
      reads this
    {
      Orders(recency, byName, uses)
    }

    constructor (limit: int)
      ensures Valid() && this.limit == limit && recency == []
    {
      this.limit := limit;
      byName, uses, recency := map[], 0, [];
    }

    /** Puts a statement in the map under a fresh stamp, ahead of every other. */
    method Stamp(name: Name, message: Message)
      requires Valid()
      modifies this
      ensures Valid() && recency == Dropped(old(recency), name) + [Entry(name, message)]
    {
      StampOrders(recency, byName, uses, name, message);
      uses := uses + 1;
      byName := byName[name := Stamped(message, uses)];
      recency := Dropped(recency, name) + [Entry(name, message)];
    }

    method Forget(name: Name)
      requires Valid()
      modifies this
      ensures Valid() && recency == Dropped(old(recency), name)
    {
      ForgetOrders(recency, byName, uses, name);
      byName := byName - {name};
      recency := Dropped(recency, name);
    }

    /** evict: a scan of the map, in whatever order it is walked, that always ends on the
        head of the recency list. */
    method Evict() returns (evicted: Option<Name>)
      requires Valid()
      modifies this
      ensures Valid()
      ensures old(recency) == [] ==> evicted == None && recency == []
      ensures old(recency) != [] ==> evicted == Some(old(recency)[0].name) && recency == old(recency)[1..]
    {
      var rest := byName.Keys;
      evicted := None;
      while rest != {}
        invariant rest <= byName.Keys
        invariant evicted.None? ==> rest == byName.Keys
        invariant evicted.Some? ==>
          evicted.value in byName && forall n :: n in byName.Keys - rest ==>
            byName[evicted.value].used <= byName[n].used
        decreases |rest|
      {
        var name :| name in rest;
        if evicted.None? || byName[name].used < byName[evicted.value].used {
          evicted := Some(name);
        }
        rest := rest - {name};
      }
      StampsAreDistinct(recency, byName, uses);
      if evicted.None? {
        return;
      }
      OldestIsHead(recency, byName, uses, evicted.value);
      HeadDropped(recency);
      Forget(evicted.value);
    }

    /** remember. The unnamed statement never is. */
    method Remember(name: Name, message: Message) returns (evicted: Option<Name>)
      requires Valid()
      modifies this
      ensures Valid() && (recency, evicted) == Remembered(old(recency), limit, name, message)
    {
      if name == [] {
        return None;
      }
      HasIsInMap(name);
      if name in byName {
        Stamp(name, message);
        return None;
      }
      evicted := None;
      StampsAreDistinct(recency, byName, uses);
      if limit > 0 && |byName| >= limit {
        evicted := Evict();
        HasIsInMap(name);
      }
      NothingToDrop(recency, name);
      Stamp(name, message);
    }

    lemma HasIsInMap(name: Name)
      requires Valid()
      ensures Has(recency, name) <==> name in byName
    {
    }

    /** lookup. A hit counts as a use. */
    method Lookup(name: Name) returns (message: Option<Message>)
      requires Valid()
      modifies this
      ensures Valid() && message == Find(old(recency), name) && recency == Touched(old(recency), name)
    {
      HasIsInMap(name);
      if name !in byName {
        return None;
      }
      StampsAreDistinct(recency, byName, uses);
      ghost var i :| 0 <= i < |recency| && recency[i].name == name;
      FindIsEntry(recency, i);
      message := Some(byName[name].message);
      Stamp(name, message.value);
    }
  }

  // ---- runs -------------------------------------------------------------------------

  datatype Use = Remember(name: Name, message: Message) | Lookup(name: Name) | Forget(name: Name)

  function Used(l: Lru, limit: int, use: Use): Lru {
    match use
    case Remember(n, m) => Remembered(l, limit, n, m).0
    case Lookup(n) => Touched(l, n)
    case Forget(n) => Dropped(l, n)
  }

  function After(l: Lru, limit: int, uses: seq<Use>): Lru
    decreases |uses|
  {
    if uses == [] then l else After(Used(l, limit, uses[0]), limit, uses[1..])
  }

  /** A positive limit is kept in every run, whatever names a client invents. */
  lemma {:induction false} LimitHolds(l: Lru, limit: int, uses: seq<Use>)
    requires Distinct(l) && limit > 0 && |l| <= limit
    ensures Distinct(After(l, limit, uses)) && |After(l, limit, uses)| <= limit
    decreases |uses|
  {
    if uses != [] {
      match uses[0] {
        case Remember(n, m) =>
          if n != [] {
            RememberedAsMap(l, limit, n, m);
          }
          LimitHolds(Remembered(l, limit, n, m).0, limit, uses[1..]);
        case Lookup(n) =>
          TouchedAsMap(l, n);
          LimitHolds(Touched(l, n), limit, uses[1..]);
        case Forget(n) =>
          DroppedIsDistinct(l, n);
          LimitHolds(Dropped(l, n), limit, uses[1..]);
      }
    }
  }
}
