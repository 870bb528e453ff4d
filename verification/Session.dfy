/** One client connection of the proxy and the backend it is attached to, as the objects
    its two goroutines share. */
module Session {
  import opened Bytes
  import opened Completions
  import opened Options
  import opened Statements
  import opened StatementSet
  import opened Wire
  import opened Reconcile

  /** One pooled server connection: what has been written to it, and what it is known to
      have prepared. */
  class Backend {
    const prepared: StatementSet
    var sent: seq<Message>
    var accepts: nat         // writes its socket still takes before one fails
    var broken: bool
    var txStatus: byte

    constructor (limit: int, accepts: nat)
      ensures prepared.Valid() && prepared.limit == limit && prepared.recency == []
      ensures fresh(prepared) && sent == [] && this.accepts == accepts && !broken && txStatus == TX_IDLE
    {
      prepared := new StatementSet(limit);
      sent, broken, txStatus := [], false, TX_IDLE;
      this.accepts := accepts;
    }

    /** The connection is no longer usable, because its socket failed. */
    ghost predicate Failed()
      reads this
    {
      broken && accepts == 0
    }

    /** A write goes through whole, or the connection is no longer usable. */
    method Write(message: Message) returns (ok: bool)
      modifies this`sent, this`accepts, this`broken
      ensures ok == (old(accepts) > 0)
      ensures ok ==> sent == old(sent) + [message] && accepts == old(accepts) - 1 && broken == old(broken)
      ensures !ok ==> sent == old(sent) && Failed()
    {
      ok := accepts > 0;
      if ok {
        sent, accepts := sent + [message], accepts - 1;
      } else {
        broken := true;
      }
    }
  }

  /** completeUnit: whether a ReadyForQuery gives the backend back, and what is pending. */
  function Completed(pending: nat, status: byte): (bool, nat) {
    var left := if pending > 0 then pending - 1 else 0;
    (left == 0 && status == TX_IDLE, left)
  }

  class Session {
    const statements: StatementSet
    var owed: seq<byte>          // expect
    var pending: nat
    var held: Backend?
    var attached: bool

    ghost predicate Valid(target: Backend)
      reads this, statements, target, target.prepared
    {
      statements != target.prepared && statements.Valid() && target.prepared.Valid()
      && statements.limit == target.prepared.limit
    }

    ghost function View(target: Backend): Plan
      reads this, statements, target, target.prepared
    {
      Plan(statements.recency, target.prepared.recency, target.sent, owed)
    }

    constructor (limit: int)
      ensures statements.Valid() && statements.limit == limit && statements.recency == [] && fresh(statements)
      ensures owed == [] && pending == 0 && !attached
    {
      statements := new StatementSet(limit);
      owed, pending, held, attached := [], 0, null, false;
    }

    /** Writes a message the client did not send and notes the completion it will cause. */
    method Inject(target: Backend, message: Message, completion: byte) returns (ok: bool)
      requires Valid(target)
      modifies this`owed, target`sent, target`accepts, target`broken
      ensures Valid(target)
      ensures ok ==>
        View(target) == Injecting(old(View(target)), message, completion) && target.broken == old(target.broken)
      ensures !ok ==> target.Failed()
    {
      ok := target.Write(message);
      if ok {
        owed := owed + [completion];
      }
    }

    method Hold(target: Backend, name: Name, message: Message) returns (ok: bool)
      requires Valid(target)
      modifies this`owed, target`sent, target`accepts, target`broken, target.prepared
      ensures Valid(target)
      ensures ok ==>
        View(target) == Held(statements.limit, old(View(target)), name, message) && target.broken == old(target.broken)
      ensures !ok ==> target.Failed()
    {
      var evicted := target.prepared.Remember(name, message);
      ok := true;
      if evicted.Some? {
        ok := Inject(target, CloseStatement(evicted.value), CLOSE_COMPLETE);
      }
    }

    method EnsurePrepared(target: Backend, name: Name) returns (ok: bool)
      requires Valid(target)
      modifies this`owed, target`sent, target`accepts, target`broken, target.prepared, statements
      ensures Valid(target)
      ensures ok ==>
        View(target) == Ensured(statements.limit, old(View(target)), name) && target.broken == old(target.broken)
      ensures !ok ==> target.Failed()
    {
      var remembered := statements.Lookup(name);
      if remembered.None? {
        return true;
      }
      var present := target.prepared.Lookup(name);
      if present.Some? {
        if present == remembered {
          return true;
        }
        ok := Inject(target, CloseStatement(name), CLOSE_COMPLETE);
        if !ok {
          return;
        }
      }
      ok := Inject(target, remembered.value, PARSE_COMPLETE);
      if ok {
        ok := Hold(target, name, remembered.value);
      }
    }

    method ReconcileParse(target: Backend, name: Name, message: Message) returns (ok: bool)
      requires Valid(target) && name != [] && Distinct(statements.recency)
      modifies this`owed, target`sent, target`accepts, target`broken, target.prepared, statements
      ensures Valid(target)
      ensures ok ==>
        && View(target) == Parsed(statements.limit, old(View(target)), name, message)
        && target.broken == old(target.broken)
      ensures !ok ==> target.Failed()
    {
      var present := target.prepared.Lookup(name);
      if present.Some? {
        ok := Inject(target, CloseStatement(name), CLOSE_COMPLETE);
        if !ok {
          return;
        }
      }
      RememberedAsMap(statements.recency, statements.limit, name, message);
      var _ := statements.Remember(name, message);
      var remembered := statements.Lookup(name);
      ok := Hold(target, name, remembered.value);
    }

    /** Makes the backend hold the statement a message names. */
    method Reconcile(target: Backend, message: Message) returns (ok: bool)
      requires Valid(target) && |message| >= HEADER_SIZE
      modifies this`owed, target`sent, target`accepts, target`broken, target.prepared, statements
      ensures Valid(target)
      ensures ok ==>
        View(target) == Reconciled(statements.limit, old(View(target)), message) && target.broken == old(target.broken)
      ensures !ok ==> target.Failed()
    {
      var kind := Kind(message);
      ok := true;
      if kind == MSG_PARSE {
        var name := CString(Body(message));
        if name.None? || name.value == [] {
          return;
        }
        StampsAreDistinct(statements.recency, statements.byName, statements.uses);
        ok := ReconcileParse(target, name.value, message);
      } else if kind == MSG_BIND || kind == MSG_DESCRIBE || kind == MSG_CLOSE {
        var name := StatementNameOf(kind, Body(message));
        if name.None? || name.value == [] {
          return;
        }
        if kind == MSG_CLOSE {
          target.prepared.Forget(name.value);
          statements.Forget(name.value);
          return;
        }
        ok := EnsurePrepared(target, name.value);
      }
    }

    /** Sends one client message on, with whatever has to go in front of it. */
    method Forward(target: Backend, message: Message) returns (ok: bool)
      requires Valid(target) && |message| >= HEADER_SIZE
      modifies this`owed, this`pending, target`sent, target`accepts, target`broken, target.prepared, statements
      ensures Valid(target)
      ensures ok ==>
        var p := Reconciled(statements.limit, old(View(target)), message);
        && View(target) == p.(injected := p.injected + [message])
        && pending == old(pending) + (if EndsTransactionUnit(Kind(message)) then 1 else 0)
        && target.broken == old(target.broken)
      ensures !ok ==> target.Failed()
    {
      ok := true;
      if NamesStatement(Kind(message)) {
        ok := Reconcile(target, message);
      }
      if ok {
        ok := target.Write(message);
      }
      if ok && EndsTransactionUnit(Kind(message)) {
        pending := pending + 1;
      }
    }

    method Swallows(kind: byte) returns (mine: bool)
      modifies this`owed
      ensures (mine, owed) == Swallowed(old(owed), kind)
    {
      if owed == [] || owed[0] != kind {
        return false;
      }
      owed := owed[1..];
      return true;
    }

    /** Attaches an acquired backend if the session has none; null is a failed Acquire. */
    method EnsureBackend(acquired: Backend?) returns (target: Backend?)
      requires attached ==> held != null
      modifies this`held, this`attached
      ensures old(attached) ==> target == held == old(held) && attached
      ensures !old(attached) ==> target == acquired && attached == (acquired != null) && (attached ==> held == acquired)
    {
      if attached {
        return held;
      }
      if acquired == null {
        return null;
      }
      held := acquired;
      attached := true;
      return acquired;
    }

    /** Records a ReadyForQuery; the backend is given back only when nothing is pending and
        no transaction is open. */
    method CompleteUnit(source: Backend, status: byte) returns (released: bool)
      requires attached && held == source
      modifies this`pending, this`attached, source`txStatus
      ensures source.txStatus == status && (released, pending) == Completed(old(pending), status)
      ensures attached == !released
    {
      source.txStatus := status;
      if pending > 0 {
        pending := pending - 1;
      }
      if pending > 0 || status != TX_IDLE {
        return false;
      }
      attached := false;
      return true;
    }

    /** The client has gone: a backend still attached is never pooled again. */
    method Detach()
      requires attached ==> held != null
      modifies this`attached, if held != null then {held} else {}
      ensures !attached && (old(attached) ==> held.broken)
    {
      if attached {
        held.broken := true;
        attached := false;
      }
    }
  }
}
