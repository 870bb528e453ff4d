/** A checked-out connection, and the one time it goes back. */
module Handles {
  /** What the core has been handed back: a connection and the shard it came from. */
  class Core {
    var returned: seq<(nat, nat)>

    constructor ()
      ensures returned == []
    {
      returned := [];
    }

    method Accept(conn: nat, shard: nat)
      modifies this
      ensures returned == old(returned) + [(conn, shard)]
    {
      returned := returned + [(conn, shard)];
    }
  }

  class Handle {
    const core: Core
    const conn: nat
    const shard: nat
    var released: bool

    constructor (core: Core, conn: nat, shard: nat)
      ensures this.core == core && this.conn == conn && this.shard == shard && !released
    {
      this.core, this.conn, this.shard, released := core, conn, shard, false;
    }

    /** Returns the connection the first time, and changes nothing after. */
    method Release()
      modifies this`released, core
      ensures released
      ensures core.returned == old(core.returned) + (if old(released) then [] else [(conn, shard)])
    {
      if released {
        return;
      }
      released := true;
      core.Accept(conn, shard);
    }
  }

  /** However often callers release handles of one core, in whatever order, each connection
      goes back at most once, and exactly once if its handle was ever released. */
  method ReleaseAll(handles: seq<Handle>, core: Core, order: seq<nat>)
    requires forall h :: h in handles ==> h.core == core
    requires forall i, j :: 0 <= i < j < |handles| ==> handles[i] != handles[j] && handles[i].conn != handles[j].conn
    requires forall h :: h in handles ==> !h.released
    requires forall k :: k in order ==> k < |handles|
    modifies core, set h | h in handles
    ensures forall i :: 0 <= i < |handles| ==> (handles[i].released <==> i in order)
    ensures forall i :: 0 <= i < |handles| ==>
      Times(core.returned, handles[i].conn) ==
        old(Times(core.returned, handles[i].conn)) + (if i in order then 1 else 0)
  {
    var n := 0;
    while n < |order|
      invariant n <= |order|
      invariant forall i :: 0 <= i < |handles| ==> (handles[i].released <==> i in order[..n])
      invariant forall i :: 0 <= i < |handles| ==>
        Times(core.returned, handles[i].conn) ==
          old(Times(core.returned, handles[i].conn)) + (if i in order[..n] then 1 else 0)
    {
      var k := order[n];
      assert k in order;
      ghost var before := core.returned;
      handles[k].Release();
      assert order[..n + 1] == order[..n] + [k];
      forall i | 0 <= i < |handles|
        ensures Times(core.returned, handles[i].conn) ==
          old(Times(core.returned, handles[i].conn)) + (if i in order[..n + 1] then 1 else 0)
      {
        TimesAppend(before, (handles[k].conn, handles[k].shard), handles[i].conn);
        assert before + [] == before;
      }
      n := n + 1;
    }
    assert order[..n] == order;
  }

  /** How often a connection was handed back. */
  function Times(returned: seq<(nat, nat)>, conn: nat): nat {
    if returned == [] then 0 else (if returned[0].0 == conn then 1 else 0) + Times(returned[1..], conn)
  }

  lemma {:induction false} TimesAppend(returned: seq<(nat, nat)>, last: (nat, nat), conn: nat)
    ensures Times(returned + [last], conn) == Times(returned, conn) + (if last.0 == conn then 1 else 0)
  {
    if returned == [] {
      assert returned + [last] == [last];
    } else {
      assert (returned + [last])[0] == returned[0] && (returned + [last])[1..] == returned[1..] + [last];
      TimesAppend(returned[1..], last, conn);
    }
  }
}
