/** The resizable permit set: a token channel, a limit and a debt. */
module Permits {

  /** What a permit set holds; capacity is that of its channel. */
  datatype PermitState = PermitState(tokens: nat, limit: nat, debt: nat, capacity: nat)

  function Min(a: nat, b: nat): nat { if a < b then a else b }

  function Max0(a: int): nat { if a < 0 then 0 else a }

  function Clamp(n: int, capacity: nat): nat { Min(Max0(n), capacity) }

  /** A change of the limit: a growth cancels debt before it hands tokens out, and a
      shrink takes free tokens before it leaves debt. */
  function Resized(p: PermitState, n: int): PermitState {
    var target := Clamp(n, p.capacity);
    if target >= p.limit then
      var repaid := Min(p.debt, target - p.limit);
      p.(limit := target, debt := p.debt - repaid,
         tokens := Min(p.tokens + (target - p.limit - repaid), if p.tokens > p.capacity then p.tokens else p.capacity))
    else
      var taken := Min(p.tokens, p.limit - target);
      p.(limit := target, tokens := p.tokens - taken, debt := p.debt + (p.limit - target - taken))
  }

  function Acquired(p: PermitState): PermitState {
    if p.tokens > 0 then p.(tokens := p.tokens - 1) else p
  }

  function Released(p: PermitState): PermitState {
    if p.debt > 0 then p.(debt := p.debt - 1)
    else if p.tokens < p.capacity then p.(tokens := p.tokens + 1)
    else p
  }

  class Permits {
    var tokens: nat
    var limit: nat
    var debt: nat
    const capacity: nat

    ghost predicate Valid()
      reads this
    {
      tokens <= capacity && limit <= capacity
    }

    ghost function State(): PermitState
      reads this
    {
      PermitState(tokens, limit, debt, capacity)
    }

    constructor (n: nat, ceiling: nat)
      ensures Valid() && State() == PermitState(n, n, 0, if ceiling < n then n else ceiling)
    {
      capacity := if ceiling < n then n else ceiling;
      limit, debt, tokens := n, 0, 0;
      new;
      for i := 0 to n
        invariant tokens == i && limit == n && debt == 0
      {
        tokens := tokens + 1;
      }
    }

    method RepayDebt() returns (repaid: bool)
      modifies this`debt
      ensures repaid == (old(debt) > 0) && debt == old(debt) - (if repaid then 1 else 0)
    {
      if debt <= 0 {
        return false;
      }
      debt := debt - 1;
      return true;
    }

    /** A growth by delta: cancels debt before it hands tokens out. */
    method HandOut(delta: nat)
      requires Valid()
      modifies this`tokens, this`debt
      ensures Valid() && debt == old(debt) - Min(old(debt), delta)
      ensures tokens == Min(old(tokens) + (delta - Min(old(debt), delta)), capacity)
    {
      for i := 0 to delta
        invariant Valid() && debt == old(debt) - Min(old(debt), i)
        invariant tokens == Min(old(tokens) + (i - Min(old(debt), i)), capacity)
      {
        var repaid := RepayDebt();
        if !repaid && tokens < capacity {
          tokens := tokens + 1;
        }
      }
    }

    /** A shrink by delta: takes free tokens before it leaves debt. */
    method Reclaim(delta: nat)
      requires Valid()
      modifies this`tokens, this`debt
      ensures Valid() && tokens == old(tokens) - Min(old(tokens), delta)
      ensures debt == old(debt) + (delta - Min(old(tokens), delta))
    {
      for i := 0 to delta
        invariant Valid() && tokens == old(tokens) - Min(old(tokens), i)
        invariant debt == old(debt) + (i - Min(old(tokens), i))
      {
        if tokens > 0 {
          tokens := tokens - 1;
        } else {
          debt := debt + 1;
        }
      }
    }

    method Resize(n: int) returns (was: nat)
      requires Valid()
      modifies this`tokens, this`limit, this`debt
      ensures Valid() && was == old(limit) && State() == Resized(old(State()), n)
      ensures limit == if n < 0 then 0 else if n > capacity then capacity else n
    {
      var target := if n < 0 then 0 else if n > capacity then capacity else n;
      was := limit;
      limit := target;
      if target > was {
        HandOut(target - was);
      } else {
        Reclaim(was - target);
      }
    }

    method TryAcquire() returns (ok: bool)
      requires Valid()
      modifies this`tokens
      ensures Valid() && ok == (old(tokens) > 0) && State() == Acquired(old(State()))
    {
      ok := tokens > 0;
      if ok {
        tokens := tokens - 1;
      }
    }

    method Release()
      requires Valid()
      modifies this`tokens, this`debt
      ensures Valid() && State() == Released(old(State()))
    {
      var repaid := RepayDebt();
      if !repaid && tokens < capacity {
        tokens := tokens + 1;
      }
    }

    /** Takes up to n tokens. The deadline passes when none is left to take, or wins the
        select against a free token once it has lost to it often enough. */
    method Drain(n: nat, patience: nat) returns (reclaimed: nat)
      requires Valid()
      modifies this`tokens
      ensures Valid() && reclaimed == Min(Min(n, patience), old(tokens))
      ensures State() == old(State()).(tokens := old(tokens) - reclaimed)
    {
      reclaimed := 0;
      while reclaimed < n && reclaimed < patience && tokens > 0
        invariant Valid() && reclaimed <= n && reclaimed <= patience && tokens == old(tokens) - reclaimed
      {
        tokens := tokens - 1;
        reclaimed := reclaimed + 1;
      }
    }
  }

  // ---- histories --------------------------------------------------------------------

  datatype Event = Resize(n: int) | Acquire | Release

  /** A permit set together with how many permits are out. */
  datatype Ledger = Ledger(p: PermitState, held: nat)

  /** A release by anyone who holds no permit is not part of a history. */
  function Next(l: Ledger, e: Event): Ledger {
    match e
    case Resize(n) => l.(p := Resized(l.p, n))
    case Acquire => if l.p.tokens > 0 then Ledger(Acquired(l.p), l.held + 1) else l
    case Release => if l.held > 0 then Ledger(Released(l.p), l.held - 1) else l
  }

  function History(l: Ledger, events: seq<Event>): Ledger
    decreases |events|
  {
    if events == [] then l else History(Next(l, events[0]), events[1..])
  }

  function New(n: nat, ceiling: nat): Ledger {
    Ledger(PermitState(n, n, 0, if ceiling < n then n else ceiling), 0)
  }

  /** Tokens and debt are what the limit and the permits out say, and nothing else. */
  ghost predicate Canonical(l: Ledger) {
    && l.p.limit <= l.p.capacity && l.held <= l.p.capacity
    && l.p.tokens == Max0(l.p.limit - l.held) && l.p.debt == Max0(l.held - l.p.limit)
  }

  lemma {:induction false} HistoryIsCanonical(l: Ledger, events: seq<Event>)
    requires Canonical(l)
    ensures Canonical(History(l, events)) && History(l, events).p.capacity == l.p.capacity
    decreases |events|
  {
    if events != [] {
      HistoryIsCanonical(Next(l, events[0]), events[1..]);
    }
  }

  /** Whatever the history, the permit set is a function of its limit and of how many
      permits are out: resizes leave no trace of the path taken. */
  lemma PathIndependent(n: nat, ceiling: nat, one: seq<Event>, other: seq<Event>)
    requires var a, b := History(New(n, ceiling), one), History(New(n, ceiling), other);
             a.held == b.held && a.p.limit == b.p.limit
    ensures History(New(n, ceiling), one) == History(New(n, ceiling), other)
  {
    HistoryIsCanonical(New(n, ceiling), one);
    HistoryIsCanonical(New(n, ceiling), other);
  }

  lemma ResizedIsCanonical(p: PermitState, held: nat, n: int)
    requires Canonical(Ledger(p, held))
    ensures Canonical(Ledger(Resized(p, n), held)) && Resized(p, n).limit == Clamp(n, p.capacity)
    ensures Resized(p, n).capacity == p.capacity
  {
  }

  /** An intermediate resize is invisible. */
  lemma LastResizeWins(n: nat, ceiling: nat, events: seq<Event>, a: int, b: int)
    ensures var p := History(New(n, ceiling), events).p; Resized(Resized(p, a), b) == Resized(p, b)
  {
    HistoryIsCanonical(New(n, ceiling), events);
    var l := History(New(n, ceiling), events);
    ResizedIsCanonical(l.p, l.held, a);
    ResizedIsCanonical(l.p, l.held, b);
    ResizedIsCanonical(Resized(l.p, a), l.held, b);
  }

  /** A shrink is paid by releases: once no more permits are out than the limit allows,
      there is no debt, and a permit is free exactly when fewer are out than the limit. */
  lemma {:induction false} ShrinkConverges(n: nat, ceiling: nat, events: seq<Event>)
    ensures var l := History(New(n, ceiling), events);
            && (l.p.debt == 0 <==> l.held <= l.p.limit)
            && (l.p.tokens > 0 <==> l.held < l.p.limit)
  {
    HistoryIsCanonical(New(n, ceiling), events);
  }
}
