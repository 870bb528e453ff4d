/** What a resize leaves owed, from the moment its ceiling is published: exactly when the
    debt it records is sure to be paid. */
module PoolOwes {
  import opened Sums
  import opened PoolProtocol
  import opened PoolInvariant
  import opened PoolShrink
  import opened PoolRefines
  import opened PoolTrim
  import opened PoolSettles
  import opened PoolReturns
  import opened PoolDebt
  import Permits

  /** SetMaxConns(n) has published its ceiling and is about to move the permits. */
  ghost predicate AboutToResize(cfg: Config, s: State, r: nat, n: nat) {
    Inv(cfg, s) && r < |s.actors| && s.actors[r] == Resizing(n, 0, SwapLimit)
  }

  /** Permits it has still to hand out; negative if it is to take some. */
  function Ahead(g: Shared, n: nat, pc: PC): int {
    if pc.Resizing? then (if pc.rz.SwapLimit? then n - g.limit else pc.delta) else 0
  }

  /** The debt nobody is left to pay. */
  function Stranded(s: State): int { s.g.debt - Sum(s.actors, Looking) }

  function Growth(k: int): int { if k > 0 then k else 0 }

  /** Actor r is in its resize to n, what is stranded it will hand back, and what it is to
      take is free. */
  ghost predicate Affords(cfg: Config, s: State, r: nat, n: nat) {
    && Inv(cfg, s) && r < |s.actors| && Published(n, s.actors[r])
    && !(s.actors[r].Resizing? && s.actors[r].rz.AddDebt?)
    && Stranded(s) <= Growth(Ahead(s.g, n, s.actors[r]))
    && s.g.tokens + Ahead(s.g, n, s.actors[r]) >= 0
  }

  // ---- it goes on affording it -------------------------------------------------------

  /** The resizer's own step. */
  ghost predicate Settles(g: Shared, n: nat, pc: PC, g': Shared, pc': PC) {
    && Published(n, pc') && !(pc'.Resizing? && pc'.rz.AddDebt?) && Looking(pc') == 0
    && (g'.debt - Growth(Ahead(g', n, pc')) <= g.debt - Growth(Ahead(g, n, pc)) || g'.debt == 0)
    && g'.tokens + Ahead(g', n, pc') >= 0
    && (Ahead(g, n, pc) >= 0 ==> Ahead(g', n, pc') >= 0)
  }

  lemma LoopSettles(cfg: Config, g: Shared, n: nat, me: nat, delta: int, rz: ResizePc, ch: Choice)
    requires var pc := Resizing(n, delta, rz);
      && ResizerKnows(cfg, g, me, pc) && Published(n, pc) && !Unlocking(n, pc) && !rz.AddDebt?
      && g.tokens + Ahead(g, n, pc) >= 0
    ensures var (g', pc') := ResizeStep(cfg, g, me, n, delta, rz, ch); Settles(g, n, Resizing(n, delta, rz), g', pc')
  {
  }

  lemma TrimSettles(cfg: Config, g: Shared, n: nat, me: nat, pc: PC, ch: Choice)
    requires Shaped(g) && Published(n, pc) && !pc.Resizing?
    ensures var (g', pc') := Local(cfg, g, me, pc, ch); Settles(g, n, pc, g', pc')
  {
  }

  lemma ResizerAffords(cfg: Config, s: State, r: nat, n: nat, l: Label)
    requires Affords(cfg, s, r, n) && l.actor == r && !Unlocking(n, s.actors[r])
    ensures var t := Step(cfg, s, l);
      Affords(cfg, t, r, n) && (Ahead(s.g, n, s.actors[r]) >= 0 ==> Ahead(t.g, n, t.actors[r]) >= 0)
  {
    StepKeepsInv(cfg, s, l);
    var t, pc := Step(cfg, s, l), s.actors[r];
    assert Knows(cfg, s.g, r, pc);
    if pc.Resizing? {
      LoopSettles(cfg, s.g, n, r, pc.delta, pc.rz, l.choice);
    } else {
      TrimSettles(cfg, s.g, n, r, pc, l.choice);
    }
    SumUpdate(s.actors, Looking, r, t.actors[r]);
    LookingNonNegative(t);
  }

  /** Anyone else's: unless it takes a permit that a shrink needs. */
  lemma OtherAffords(cfg: Config, s: State, r: nat, n: nat, l: Label)
    requires Affords(cfg, s, r, n) && l.actor != r
    requires Ahead(s.g, n, s.actors[r]) >= 0 ||
      Sum(Step(cfg, s, l).actors, PoolInvariant.Permits) <= Sum(s.actors, PoolInvariant.Permits)
    ensures var t := Step(cfg, s, l);
      Affords(cfg, t, r, n) && Ahead(t.g, n, t.actors[r]) == Ahead(s.g, n, s.actors[r])
  {
    StepKeepsInv(cfg, s, l);
    if l.actor < |s.actors| {
      var t, pc := Step(cfg, s, l), s.actors[l.actor];
      assert Knows(cfg, s.g, r, s.actors[r]) && Knows(cfg, s.g, l.actor, pc);
      LocalPays(cfg, s.g, l.actor, pc, l.choice);
      SumUpdate(s.actors, Looking, l.actor, t.actors[l.actor]);
      SumUpdate(s.actors, PoolInvariant.Permits, l.actor, t.actors[l.actor]);
      LookingNonNegative(t);
      assert t.g.tokens >= 0;
    }
  }

  lemma {:induction false} RunAffords(cfg: Config, s: State, r: nat, n: nat, labels: seq<Label>)
    requires Inv(cfg, s) && r < |s.actors| && AsksOnce(labels, r)
    requires !Resizes(s.actors[r]) || (Affords(cfg, s, r, n) &&
      (Ahead(s.g, n, s.actors[r]) >= 0 || NobodyTakes(cfg, s, labels, r)))
    ensures var t := Run(cfg, s, labels); r < |t.actors| && (!Resizes(t.actors[r]) || Affords(cfg, t, r, n))
    decreases |labels|
  {
    if labels != [] {
      var l, t := labels[0], Step(cfg, s, labels[0]);
      StepKeepsInv(cfg, s, l);
      if !Resizes(s.actors[r]) {
        ReturnedStaysOut(cfg, s, r, l);
      } else if l.actor != r {
        OtherAffords(cfg, s, r, n, l);
      } else if !Unlocking(n, s.actors[r]) {
        ResizerAffords(cfg, s, r, n, l);
      }
      assert AsksOnce(labels[1..], r);
      RunAffords(cfg, t, r, n, labels[1..]);
    }
  }

  // ---- or strands some ---------------------------------------------------------------

  lemma {:induction false} OwnStepsTakeNothing(cfg: Config, s: State, labels: seq<Label>, r: nat)
    requires Shaped(s.g) && forall i :: 0 <= i < |labels| ==> labels[i].actor == r
    ensures NobodyTakes(cfg, s, labels, r)
    decreases |labels|
  {
    if labels != [] {
      OwnStepsTakeNothing(cfg, Step(cfg, s, labels[0]), labels[1..], r);
    }
  }

  /** A schedule on which the resize unlocks and strands some debt. */
  ghost predicate Strands(cfg: Config, s: State, r: nat, n: nat, labels: seq<Label>)
    requires Shaped(s.g)
  {
    var t := Run(cfg, s, labels);
    AsksNothing(labels) && r < |t.actors| && Unlocking(n, t.actors[r]) && !Payable(t)
  }

  /** The resizer on its own leaves the debt of the whole operation. */
  lemma StrandsAlone(cfg: Config, s: State, r: nat, n: nat) returns (labels: seq<Label>)
    requires AboutToResize(cfg, s, r, n)
    requires Permits.Resized(PermitsOf(cfg, s.g), n).debt > Sum(s.actors, Looking)
    ensures NobodyTakes(cfg, s, labels, r) && Strands(cfg, s, r, n, labels)
  {
    var steps := UnlocksAlone(cfg, s, r, n);
    labels := AloneIsRun(cfg, s, r, GRANTED, steps);
    OwnStepsTakeNothing(cfg, s, labels, r);
    SumUpdate(s.actors, Looking, r, Run(cfg, s, labels).actors[r]);
  }

  lemma {:induction false} StrandsAfter(cfg: Config, s: State, r: nat, n: nat, first: seq<Label>, rest: seq<Label>)
    requires Shaped(s.g) && AsksNothing(first) && Strands(cfg, Run(cfg, s, first), r, n, rest)
    ensures Strands(cfg, s, r, n, first + rest)
  {
    RunConcat(cfg, s, first, rest);
  }

  /** A shrink that finds too few tokens free, with every release past its look at a debt
      that is not recorded yet. */
  lemma ShortIsStranded(cfg: Config, s: State, r: nat, n: nat) returns (labels: seq<Label>)
    requires AboutToResize(cfg, s, r, n) && s.g.limit - s.g.tokens > n
    ensures NobodyTakes(cfg, s, labels, r) && Strands(cfg, s, r, n, labels)
  {
    var looks := AllLook(cfg, s, r);
    var t := Run(cfg, s, looks);
    RunKeepsInv(cfg, s, looks);
    assert t.actors[r] == s.actors[r];
    TokensFit(cfg, t, r, n);
    var rest := StrandsAlone(cfg, t, r, n);
    StrandsAfter(cfg, s, r, n, looks, rest);
    NobodyTakesConcat(cfg, s, looks, rest, r);
    labels := looks + rest;
  }

  /** What the resize can pay for: the debt nobody is left to pay is no more than it hands
      back, and the permits it is to take are free. */
  ghost predicate Covered(s: State, n: nat) {
    Stranded(s) <= Growth(n - s.g.limit) && s.g.limit - s.g.tokens <= n
  }

  lemma UncoveredIsStranded(cfg: Config, s: State, r: nat, n: nat) returns (labels: seq<Label>)
    requires AboutToResize(cfg, s, r, n) && !Covered(s, n)
    ensures NobodyTakes(cfg, s, labels, r) && Strands(cfg, s, r, n, labels)
  {
    if s.g.limit - s.g.tokens > n {
      labels := ShortIsStranded(cfg, s, r, n);
    } else {
      TokensFit(cfg, s, r, n);
      LookingNonNegative(s);
      labels := StrandsAlone(cfg, s, r, n);
    }
  }

  lemma {:induction false} CoveredIsPayable(cfg: Config, s: State, r: nat, n: nat, labels: seq<Label>)
    requires AboutToResize(cfg, s, r, n) && Covered(s, n) && AsksOnce(labels, r)
    requires n >= s.g.limit || NobodyTakes(cfg, s, labels, r)
    ensures var t := Run(cfg, s, labels); r < |t.actors| && (Unlocking(n, t.actors[r]) ==> Payable(t))
  {
    assert Knows(cfg, s.g, r, s.actors[r]);
    RunAffords(cfg, s, r, n, labels);
  }

  /** As long as nobody else takes a permit meanwhile: every schedule from there to the
      unlock leaves no more debt than there are releases to pay it, if and only if the
      resize was covered as it began. */
  lemma ResizeIsPayableExactly(cfg: Config, s: State, r: nat, n: nat)
    requires AboutToResize(cfg, s, r, n)
    ensures (forall labels: seq<Label> ::
               AsksOnce(labels, r) && NobodyTakes(cfg, s, labels, r) && Unlocking(n, Run(cfg, s, labels).actors[r])
               ==> Payable(Run(cfg, s, labels)))
            <==> Covered(s, n)
  {
    if Covered(s, n) {
      forall labels: seq<Label> | AsksOnce(labels, r) && NobodyTakes(cfg, s, labels, r)
        && Unlocking(n, Run(cfg, s, labels).actors[r])
        ensures Payable(Run(cfg, s, labels))
      {
        CoveredIsPayable(cfg, s, r, n, labels);
      }
    } else {
      var labels := UncoveredIsStranded(cfg, s, r, n);
      assert AsksOnce(labels, r) && NobodyTakes(cfg, s, labels, r) && Unlocking(n, Run(cfg, s, labels).actors[r]);
    }
  }

  /** With no debt on record that is to say that no more permits than the ceiling are out. */
  lemma CoveredIsHeld(cfg: Config, s: State, r: nat, n: nat)
    requires AboutToResize(cfg, s, r, n) && s.g.debt == 0
    ensures Covered(s, n) <==> Sum(s.actors, PoolInvariant.Permits) <= n
  {
    assert Knows(cfg, s.g, r, s.actors[r]);
    OneResizer(cfg, s, r);
    LookingNonNegative(s);
  }

  // ---- with callers about ------------------------------------------------------------

  function Free(pc: PC): int { if pc.Idle? then 1 else 0 }

  lemma OneTakes(cfg: Config, s: State, i: nat)
    requires Shaped(s.g) && i < |s.actors| && s.actors[i].Idle? && !s.g.closed && s.g.tokens > 0
    ensures var t := Run(cfg, s, [Label(i, GRANTED), Label(i, GRANTED)]);
      t == State(s.g.(tokens := s.g.tokens - 1), s.actors[i := Admitted])
  {
    var l := Label(i, GRANTED);
    var t := Step(cfg, s, l);
    assert [l, l][1..] == [l] && [l][1..] == [];
    assert Run(cfg, s, [l, l]) == Run(cfg, t, [l]) == Run(cfg, Step(cfg, t, l), []);
    assert s.actors[i := Waiting][i := Admitted] == s.actors[i := Admitted];
  }

  /** Callers take the tokens a shrink would. */
  lemma {:induction false} CallersTake(cfg: Config, s: State, r: nat, n: nat) returns (labels: seq<Label>)
    requires AboutToResize(cfg, s, r, n) && n < s.g.limit && !s.g.closed
    requires s.g.limit - s.g.tokens + Sum(s.actors, Free) > n
    ensures AsksNothing(labels)
    ensures var t := Run(cfg, s, labels); AboutToResize(cfg, t, r, n) && t.g.limit - t.g.tokens > n
    decreases s.g.tokens
  {
    if s.g.limit - s.g.tokens > n {
      labels := [];
    } else {
      var i := SumPositive(s.actors, Free);
      var two := [Label(i, GRANTED), Label(i, GRANTED)];
      var t := Run(cfg, s, two);
      OneTakes(cfg, s, i);
      RunKeepsInv(cfg, s, two);
      SumUpdate(s.actors, Free, i, Admitted);
      var rest := CallersTake(cfg, t, r, n);
      RunConcat(cfg, s, two, rest);
      labels := two + rest;
    }
  }

  /** With callers enough to take the tokens first: no schedule strands any debt if and only
      if the resize does not shrink, and what was stranded it hands back. */
  lemma RacedResizeIsPayableExactly(cfg: Config, s: State, r: nat, n: nat)
    requires AboutToResize(cfg, s, r, n)
    requires n < s.g.limit ==> !s.g.closed && s.g.limit - s.g.tokens + Sum(s.actors, Free) > n
    ensures (forall labels: seq<Label> :: AsksOnce(labels, r) && Unlocking(n, Run(cfg, s, labels).actors[r])
               ==> Payable(Run(cfg, s, labels)))
            <==> s.g.limit <= n && Stranded(s) <= n - s.g.limit
  {
    if s.g.limit <= n && Stranded(s) <= n - s.g.limit {
      forall labels: seq<Label> | AsksOnce(labels, r) && Unlocking(n, Run(cfg, s, labels).actors[r])
        ensures Payable(Run(cfg, s, labels))
      {
        CoveredIsPayable(cfg, s, r, n, labels);
      }
    } else if n < s.g.limit {
      var first := CallersTake(cfg, s, r, n);
      var rest := ShortIsStranded(cfg, Run(cfg, s, first), r, n);
      StrandsAfter(cfg, s, r, n, first, rest);
      assert AsksOnce(first + rest, r) && Unlocking(n, Run(cfg, s, first + rest).actors[r]);
    } else {
      var labels := UncoveredIsStranded(cfg, s, r, n);
      assert AsksOnce(labels, r) && Unlocking(n, Run(cfg, s, labels).actors[r]);
    }
  }

  // ---- to the day every permit is back -----------------------------------------------

  lemma {:induction false} OthersStayOut(cfg: Config, s: State, i: nat, labels: seq<Label>)
    requires Shaped(s.g) && i < |s.actors| && !Resizes(s.actors[i]) && AsksNothing(labels)
    ensures !Resizes(Run(cfg, s, labels).actors[i])
    decreases |labels|
  {
    if labels != [] {
      assert !labels[0].choice.op.SetMaxConns? && AsksNothing(labels[1..]);
      ReturnedStaysOut(cfg, s, i, labels[0]);
      OthersStayOut(cfg, Step(cfg, s, labels[0]), i, labels[1..]);
    }
  }

  /** The state in which SetMaxConns returns, having unlocked at the end of a run. */
  function Returned(cfg: Config, s: State, r: nat, labels: seq<Label>): (v: State)
    requires Shaped(s.g)
    ensures Shaped(v.g)
  {
    Step(cfg, Run(cfg, s, labels), Label(r, GRANTED))
  }

  lemma ReturnsAtRest(cfg: Config, s: State, r: nat, n: nat, during: seq<Label>)
    requires Inv(cfg, s) && r < |s.actors| && AsksNothing(during) && Unlocking(n, Run(cfg, s, during).actors[r])
    requires forall i :: 0 <= i < |s.actors| && i != r ==> !Resizes(s.actors[i])
    ensures var v := Returned(cfg, s, r, during);
      AtRest(cfg, v, n) && (Payable(v) <==> Payable(Run(cfg, s, during)))
  {
    var u, v := Run(cfg, s, during), Returned(cfg, s, r, during);
    RunKeepsInv(cfg, s, during);
    StepKeepsInv(cfg, u, Label(r, GRANTED));
    assert Knows(cfg, u.g, r, u.actors[r]);
    SumUpdate(u.actors, Looking, r, v.actors[r]);
    forall i | 0 <= i < |v.actors| ensures !Resizes(v.actors[i]) {
      if i != r {
        OthersStayOut(cfg, s, i, during);
      }
    }
  }

  /** So, of a resize that nobody else's overlaps: in every continuation the debt is zero by
      the time every permit is back, if and only if the resize was covered as it began. */
  lemma DebtIsPaidFromTheStart(cfg: Config, s: State, r: nat, n: nat)
    requires AboutToResize(cfg, s, r, n)
    requires forall i :: 0 <= i < |s.actors| && i != r ==> !Resizes(s.actors[i])
    ensures (forall during: seq<Label>, after: seq<Label> ::
               AsksNothing(during) && NobodyTakes(cfg, s, during, r) && Unlocking(n, Run(cfg, s, during).actors[r])
               && AsksNothing(after) && AllGivenBack(Run(cfg, Returned(cfg, s, r, during), after))
               ==> Run(cfg, Returned(cfg, s, r, during), after).g.debt == 0)
            <==> Covered(s, n)
  {
    if Covered(s, n) {
      forall during: seq<Label>, after: seq<Label> |
        AsksNothing(during) && NobodyTakes(cfg, s, during, r) && Unlocking(n, Run(cfg, s, during).actors[r])
        && AsksNothing(after) && AllGivenBack(Run(cfg, Returned(cfg, s, r, during), after))
        ensures Run(cfg, Returned(cfg, s, r, during), after).g.debt == 0
      {
        CoveredIsPayable(cfg, s, r, n, during);
        ReturnsAtRest(cfg, s, r, n, during);
        DebtIsPaidExactly(cfg, Returned(cfg, s, r, during), n);
      }
    } else {
      var during := UncoveredIsStranded(cfg, s, r, n);
      ReturnsAtRest(cfg, s, r, n, during);
      var after := DebtStands(cfg, Returned(cfg, s, r, during), n);
      assert AsksNothing(during) && AsksNothing(after);
    }
  }
}
