/** The set of prepared statements a session or a backend remembers. The code keeps a
    map stamped from a use counter; what it behaves as is a list from the least to the
    most recently used. */
module Statements {
  import opened Bytes
  import opened Options

  type Name = seq<byte>
  type Message = seq<byte>

  datatype Entry = Entry(name: Name, message: Message)

  /** Least recently used first. */
  type Lru = seq<Entry>

  predicate Has(l: Lru, name: Name) {
    exists i :: 0 <= i < |l| && l[i].name == name
  }

  function Find(l: Lru, name: Name): (m: Option<Message>)
    ensures m.Some? == Has(l, name)
  {
    if l == [] then None
    else if l[0].name == name then Some(l[0].message)
    else
      assert Has(l[1..], name) ==> Has(l, name);
      assert forall i :: 1 <= i < |l| && l[i].name == name ==> l[1..][i - 1].name == name;
      Find(l[1..], name)
  }

  function Dropped(l: Lru, name: Name): Lru {
    if l == [] then [] else (if l[0].name == name then [] else [l[0]]) + Dropped(l[1..], name)
  }

  /** remember: replace and move to the back, or append, dropping the head at the limit. */
  function Remembered(l: Lru, limit: int, name: Name, message: Message): (Lru, Option<Name>) {
    if name == [] then (l, None)
    else if Has(l, name) then (Dropped(l, name) + [Entry(name, message)], None)
    else if limit > 0 && |l| >= limit then (l[1..] + [Entry(name, message)], Some(l[0].name))
    else (l + [Entry(name, message)], None)
  }

  /** lookup: a hit moves to the back. */
  function Touched(l: Lru, name: Name): Lru {
    if Has(l, name) then Dropped(l, name) + [Entry(name, Find(l, name).value)] else l
  }

  predicate Distinct(l: Lru) {
    forall i, j :: 0 <= i < j < |l| ==> l[i].name != l[j].name
  }

  /** The list as a map. */
  function AsMap(l: Lru): map<Name, Message> {
    if l == [] then map[] else AsMap(l[1..])[l[0].name := l[0].message]
  }

  lemma {:induction false} FindIsEntry(l: Lru, i: nat)
    requires Distinct(l) && i < |l|
    ensures Has(l, l[i].name) && Find(l, l[i].name) == Some(l[i].message)
  {
    if i > 0 {
      FindIsEntry(l[1..], i - 1);
    }
  }

  lemma {:induction false} AsMapIs(l: Lru, name: Name)
    ensures name in AsMap(l) <==> Has(l, name)
    ensures Has(l, name) ==> AsMap(l)[name] == Find(l, name).value
  {
    assert Has(l, name) <==> Find(l, name).Some?;
    if l != [] {
      AsMapIs(l[1..], name);
      assert Has(l[1..], name) <==> Find(l[1..], name).Some?;
    }
  }

  lemma {:induction false} FindAppend(l: Lru, e: Entry, name: Name)
    ensures Find(l + [e], name) ==
      if Has(l, name) then Find(l, name) else if e.name == name then Some(e.message) else None
  {
    if l == [] {
      assert l + [e] == [e];
    } else {
      assert (l + [e])[1..] == l[1..] + [e];
      FindAppend(l[1..], e, name);
      assert Has(l, name) <==> l[0].name == name || Has(l[1..], name) by {
        assert Find(l, name).Some? == Has(l, name);
      }
    }
  }

  lemma {:induction false} FindDropped(l: Lru, gone: Name, name: Name)
    ensures Find(Dropped(l, gone), name) == if name == gone then None else Find(l, name)
  {
    if l != [] {
      FindDropped(l[1..], gone, name);
      if l[0].name != gone {
        assert Dropped(l, gone)[1..] == Dropped(l[1..], gone);
      } else {
        assert Dropped(l, gone) == Dropped(l[1..], gone);
      }
    }
  }

  lemma {:induction false} DroppedIsDistinct(l: Lru, gone: Name)
    requires Distinct(l)
    ensures Distinct(Dropped(l, gone)) && !Has(Dropped(l, gone), gone)
    ensures |Dropped(l, gone)| == |l| - (if Has(l, gone) then 1 else 0)
  {
    FindDropped(l, gone, gone);
    if l != [] {
      DroppedIsDistinct(l[1..], gone);
      var rest := Dropped(l[1..], gone);
      assert Find(l, gone).Some? == Has(l, gone);
      if l[0].name == gone {
        assert !Has(l[1..], gone);
        assert Dropped(l, gone) == rest;
      } else {
        FindDropped(l[1..], gone, l[0].name);
        assert !Has(l[1..], l[0].name);
        assert !Has(rest, l[0].name);
      }
    }
  }

  /** Two lists that find the same are the same map. */
  lemma SameFindsSameMap(l: Lru, m: map<Name, Message>)
    requires forall n :: (n in m <==> Find(l, n).Some?) && (n in m ==> Find(l, n) == Some(m[n]))
    ensures AsMap(l) == m
  {
    forall n ensures n in AsMap(l) <==> n in m {
      AsMapIs(l, n);
    }
    forall n | n in m ensures AsMap(l)[n] == m[n] {
      AsMapIs(l, n);
    }
  }

  lemma {:induction false} DroppedAsMap(l: Lru, gone: Name)
    requires Distinct(l)
    ensures Distinct(Dropped(l, gone)) && AsMap(Dropped(l, gone)) == AsMap(l) - {gone}
  {
    DroppedIsDistinct(l, gone);
    forall n ensures var d := Find(Dropped(l, gone), n); var m := AsMap(l) - {gone};
      (n in m <==> d.Some?) && (n in m ==> d == Some(m[n]))
    {
      FindDropped(l, gone, n);
      AsMapIs(l, n);
    }
    SameFindsSameMap(Dropped(l, gone), AsMap(l) - {gone});
  }

  lemma AppendedAsMap(l: Lru, e: Entry)
    requires Distinct(l) && !Has(l, e.name)
    ensures Distinct(l + [e]) && AsMap(l + [e]) == AsMap(l)[e.name := e.message]
  {
    var m := AsMap(l)[e.name := e.message];
    forall n ensures (n in m <==> Find(l + [e], n).Some?) && (n in m ==> Find(l + [e], n) == Some(m[n])) {
      FindAppend(l, e, n);
      AsMapIs(l, n);
    }
    SameFindsSameMap(l + [e], m);
  }

  lemma PutOverDropped<K, V>(m: map<K, V>, k: K, v: V)
    ensures (m - {k})[k := v] == m[k := v]
  {
  }

  /** Dropping an entry and appending it again under the same name replaces it. */
  lemma {:induction false} MovedAsMap(l: Lru, name: Name, message: Message)
    requires Distinct(l) && Has(l, name)
    ensures var r := Dropped(l, name) + [Entry(name, message)];
      Distinct(r) && |r| == |l| && Find(r, name) == Some(message) && AsMap(r) == AsMap(l)[name := message]
  {
    DroppedAsMap(l, name);
    DroppedIsDistinct(l, name);
    AppendedAsMap(Dropped(l, name), Entry(name, message));
    FindAppend(Dropped(l, name), Entry(name, message), name);
    PutOverDropped(AsMap(l), name, message);
  }

  lemma {:induction false} HeadReplacedAsMap(l: Lru, e: Entry)
    requires Distinct(l) && l != [] && !Has(l, e.name)
    ensures var r := l[1..] + [e];
      Distinct(r) && Find(r, e.name) == Some(e.message) && AsMap(r) == (AsMap(l) - {l[0].name})[e.name := e.message]
  {
    HeadDropped(l);
    DroppedAsMap(l, l[0].name);
    FindDropped(l, l[0].name, e.name);
    AppendedAsMap(l[1..], e);
    FindAppend(l[1..], e, e.name);
  }

  /** A lookup never changes what is remembered. */
  lemma TouchedAsMap(l: Lru, name: Name)
    requires Distinct(l)
    ensures var t := Touched(l, name); Distinct(t) && AsMap(t) == AsMap(l) && |t| == |l|
  {
    if Has(l, name) {
      MovedAsMap(l, name, Find(l, name).value);
      AsMapIs(l, name);
      assert AsMap(l)[name := AsMap(l)[name]] == AsMap(l);
    }
  }

  /** remember adds the statement and takes at most the evicted one away; a set that fits
      its limit still does. */
  lemma {:induction false} RememberedAsMap(l: Lru, limit: int, name: Name, message: Message)
    requires Distinct(l) && name != []
    ensures var (r, evicted) := Remembered(l, limit, name, message);
      && Distinct(r) && Has(r, name) && Find(r, name) == Some(message)
      && AsMap(r) == (if evicted.Some? then AsMap(l) - {evicted.value} else AsMap(l))[name := message]
    ensures var (r, evicted) := Remembered(l, limit, name, message);
      && (evicted.Some? ==> evicted.value != name && l != [] && evicted.value == l[0].name)
      && (evicted.Some? <==> limit > 0 && |l| >= limit && !Has(l, name))
      && (limit > 0 && |l| <= limit ==> |r| <= limit)
  {
    if Has(l, name) {
      MovedAsMap(l, name, message);
    } else if limit > 0 && |l| >= limit {
      HeadReplacedAsMap(l, Entry(name, message));
    } else {
      AppendedAsMap(l, Entry(name, message));
      FindAppend(l, Entry(name, message), name);
    }
  }

  lemma {:induction false} NothingToDrop(l: Lru, name: Name)
    requires !Has(l, name)
    ensures Dropped(l, name) == l
  {
    if l != [] {
      assert l[0].name != name;
      assert !Has(l[1..], name) by {
        assert Find(l, name).None?;
      }
      NothingToDrop(l[1..], name);
    }
  }

  lemma HeadDropped(l: Lru)
    requires l != [] && Distinct(l)
    ensures Dropped(l, l[0].name) == l[1..]
  {
    NothingToDrop(l[1..], l[0].name);
  }

  lemma {:induction false} AsMapSize(l: Lru)
    requires Distinct(l)
    ensures |AsMap(l)| == |l|
  {
    if l != [] {
      AsMapSize(l[1..]);
      AsMapIs(l[1..], l[0].name);
    }
  }
}
