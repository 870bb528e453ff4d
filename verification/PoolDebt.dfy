/** What is left of the permits after a shrink: exactly when the debt is paid off by the
    time every permit is back, and a run in which it is not. */
module PoolDebt {
  import opened Options
  import opened Sums
  import opened PoolProtocol
  import opened Striping
  import opened PoolInvariant
  import opened PoolShrink
  import opened PoolTrim
  import opened PoolReturns
  import opened PoolSurplus

  /** Tokens free, or past the last look at the debt. */
  function Freeing(s: State): int { s.g.tokens + Sum(s.actors, Sending) }

  /** No resize is under way. */
  ghost predicate AtRest(cfg: Config, s: State, n: nat) {
    Inv(cfg, s) && s.g.limit == n && forall i :: 0 <= i < |s.actors| ==> !Resizes(s.actors[i])
  }

  lemma NothingUnfinished(cfg: Config, s: State, n: nat)
    requires AtRest(cfg, s, n)
    ensures s.g.tokens + Sum(s.actors, PoolInvariant.Permits) - s.g.debt == n && Freeing(s) <= n + s.g.debt
  {
    SumIsZero(s.actors, Unfinished);
    SumDominated(s.actors, Sending, PoolInvariant.Permits, _ => 0);
    SumIsZero(s.actors, _ => 0);
  }

  /** Steps other than a release's touch no debt and return no token. */
  lemma OthersFreeNothing(cfg: Config, g: Shared, me: nat, pc: PC, ch: Choice)
    requires Shaped(g) && !Resizes(pc) && !pc.Putting?
    ensures var (g', pc') := Local(cfg, g, me, pc, ch);
      g'.limit == g.limit && g'.debt == g.debt && g'.tokens <= g.tokens && Sending(pc') == 0
  {
  }

  lemma LocalFrees(cfg: Config, g: Shared, me: nat, pc: PC, ch: Choice)
    requires Shaped(g) && !Resizes(pc) && RoomToSend(cfg, g, pc)
    ensures var (g', pc') := Local(cfg, g, me, pc, ch);
      && g'.limit == g.limit
      && (g'.tokens + Sending(pc') <= g.tokens + Sending(pc) || g'.debt == 0)
      && (Sending(pc) == 1 ==> g'.tokens == g.tokens + 1 && Sending(pc') == 0)
  {
    if !pc.Putting? {
      OthersFreeNothing(cfg, g, me, pc, ch);
    }
  }

  lemma StepFrees(cfg: Config, s: State, n: nat, l: Label)
    requires AtRest(cfg, s, n) && !l.choice.op.SetMaxConns?
    ensures var t := Step(cfg, s, l); AtRest(cfg, t, n) && (Freeing(t) <= Freeing(s) || Freeing(t) <= n)
  {
    StepKeepsInv(cfg, s, l);
    if l.actor < |s.actors| {
      var t := Step(cfg, s, l);
      SendsAreNeverDropped(cfg, s, l.actor);
      LocalFrees(cfg, s.g, l.actor, s.actors[l.actor], l.choice);
      ReturnedStaysOut(cfg, s, l.actor, l);
      SumUpdate(s.actors, Sending, l.actor, t.actors[l.actor]);
      NothingUnfinished(cfg, t, n);
    }
  }

  lemma {:induction false} RunFrees(cfg: Config, s: State, n: nat, labels: seq<Label>)
    requires AtRest(cfg, s, n) && AsksNothing(labels) && Freeing(s) <= n
    ensures var t := Run(cfg, s, labels); AtRest(cfg, t, n) && Freeing(t) <= n
    decreases |labels|
  {
    if labels != [] {
      assert !labels[0].choice.op.SetMaxConns? && AsksNothing(labels[1..]);
      StepFrees(cfg, s, n, labels[0]);
      RunFrees(cfg, Step(cfg, s, labels[0]), n, labels[1..]);
    }
  }

  lemma OneSends(cfg: Config, s: State, n: nat, i: nat)
    requires AtRest(cfg, s, n) && i < |s.actors| && Sending(s.actors[i]) == 1
    ensures var t := Step(cfg, s, Label(i, GRANTED));
      && AtRest(cfg, t, n) && t.g.tokens == s.g.tokens + 1 && t.g.debt == s.g.debt
      && Sum(t.actors, Sending) == Sum(s.actors, Sending) - 1 && Sum(t.actors, Looking) == Sum(s.actors, Looking)
  {
    var t := Step(cfg, s, Label(i, GRANTED));
    StepFrees(cfg, s, n, Label(i, GRANTED));
    SendsAreNeverDropped(cfg, s, i);
    SumUpdate(s.actors, Sending, i, t.actors[i]);
    SumUpdate(s.actors, Looking, i, t.actors[i]);
  }

  /** Everyone past the look puts its token back. */
  lemma {:induction false} AllSend(cfg: Config, s: State, n: nat) returns (labels: seq<Label>)
    requires AtRest(cfg, s, n)
    ensures AsksNothing(labels)
    ensures var t := Run(cfg, s, labels);
      && t.g.tokens == Freeing(s) && t.g.debt == s.g.debt
      && Sum(t.actors, Sending) == 0 && Sum(t.actors, Looking) == Sum(s.actors, Looking)
    decreases Sum(s.actors, Sending)
  {
    if Sum(s.actors, Sending) > 0 {
      var i := SumPositive(s.actors, Sending);
      var l := Label(i, GRANTED);
      var t := Step(cfg, s, l);
      OneSends(cfg, s, n, i);
      SumNonNegative(t.actors, Sending);
      var rest := AllSend(cfg, t, n);
      labels := [l] + rest;
      assert labels[1..] == rest;
    } else {
      SumNonNegative(s.actors, Sending);
      labels := [];
    }
  }

  /** Once a resize has returned, no more permits than the ceiling are ever free again, in
      any continuation, if and only if those free or past release's look at the debt are
      within it. */
  lemma PermitsSettleExactly(cfg: Config, s: State, n: nat)
    requires AtRest(cfg, s, n)
    ensures (forall more: seq<Label> :: AsksNothing(more) ==> Run(cfg, s, more).g.tokens <= n) <==> Freeing(s) <= n
  {
    if Freeing(s) <= n {
      forall more: seq<Label> | AsksNothing(more) ensures Run(cfg, s, more).g.tokens <= n {
        RunFrees(cfg, s, n, more);
        SumNonNegative(Run(cfg, s, more).actors, Sending);
      }
    } else {
      var more := AllSend(cfg, s, n);
      assert AsksNothing(more) && Run(cfg, s, more).g.tokens > n;
    }
  }

  /** When every permit is back, the debt is exactly the tokens above the ceiling; so it is
      zero in every continuation of such a state. */
  lemma {:induction false} DebtIsPaid(cfg: Config, s: State, n: nat, more: seq<Label>)
    requires AtRest(cfg, s, n) && Freeing(s) <= n && AsksNothing(more)
    requires forall pc :: pc in Run(cfg, s, more).actors ==> PoolInvariant.Permits(pc) == 0
    ensures Run(cfg, s, more).g.debt == 0 && Run(cfg, s, more).g.tokens == n
  {
    RunFrees(cfg, s, n, more);
    var t := Run(cfg, s, more);
    NothingUnfinished(cfg, t, n);
    SumIsZero(t.actors, PoolInvariant.Permits);
    SumNonNegative(t.actors, Sending);
  }

  // ---- exactly when the debt is paid -------------------------------------------------

  /** Every unit of debt has a permit whose release will still look at it. */
  ghost predicate Payable(s: State) { s.g.debt <= Sum(s.actors, Looking) }

  ghost predicate AllGivenBack(s: State) { forall pc :: pc in s.actors ==> GivenBack(pc) }

  /** Outside a resize debt goes only with a permit that looked at it, and a token only to
      one that will. */
  ghost predicate Pays(g: Shared, pc: PC, g': Shared, pc': PC) {
    && g'.limit == g.limit && g'.debt <= g.debt
    && (g'.debt - Looking(pc') <= g.debt - Looking(pc) || g'.debt == 0)
    && (g'.tokens < g.tokens ==> PoolInvariant.Permits(pc') > PoolInvariant.Permits(pc))
  }

  lemma HoldPays(g: Shared, c: Conn, sh: nat, hold: HoldPc, ch: Choice)
    requires Shaped(g) && !InCritical(Holding(c, sh, hold))
    ensures var (g', pc') := HoldStep(g, c, sh, hold, ch); Pays(g, Holding(c, sh, hold), g', pc')
  {
  }

  lemma DestroyPays(g: Shared, pc: PC, ch: Choice)
    requires Shaped(g) && pc.Destroying? && !InCritical(pc)
    ensures var (g', pc') := DestroyStep(g, pc.cs, pc.why, pc.back, pc.des, ch); Pays(g, pc, g', pc')
  {
  }

  lemma SweepPays(g: Shared, kind: Sweep, k: nat, ch: Choice)
    requires Shaped(g)
    ensures var (g', pc') := SweepStep(g, kind, k, ch); Pays(g, Sweeping(kind, k), g', pc')
  {
  }

  lemma BackgroundPays(cfg: Config, g: Shared, me: nat, pc: PC, ch: Choice)
    requires Shaped(g) && (pc.Maintaining? || pc.Shutting? || pc.Reserving?)
    ensures var (g', pc') := Local(cfg, g, me, pc, ch); Pays(g, pc, g', pc')
  {
  }

  lemma LocalPays(cfg: Config, g: Shared, me: nat, pc: PC, ch: Choice)
    requires Shaped(g) && !InCritical(pc) && (pc.Resizing? ==> g.resizer.Some?)
    ensures var (g', pc') := Local(cfg, g, me, pc, ch); Pays(g, pc, g', pc')
  {
    match pc
    case Holding(c, sh, hold) => HoldPays(g, c, sh, hold, ch);
    case Destroying(_, _, _, _) => DestroyPays(g, pc, ch);
    case Sweeping(kind, k) => SweepPays(g, kind, k, ch);
    case Maintaining(_) => BackgroundPays(cfg, g, me, pc, ch);
    case Shutting(_, _) => BackgroundPays(cfg, g, me, pc, ch);
    case Reserving(_, _) => BackgroundPays(cfg, g, me, pc, ch);
    case _ =>
  }

  lemma LookingNonNegative(s: State)
    ensures Sum(s.actors, Looking) >= 0
  {
    forall pc | pc in s.actors ensures Looking(pc) >= 0 { LookingIsAPermit(pc); }
    SumNonNegative(s.actors, Looking);
  }

  lemma StepPays(cfg: Config, s: State, n: nat, l: Label)
    requires AtRest(cfg, s, n) && !l.choice.op.SetMaxConns? && Payable(s)
    ensures var t := Step(cfg, s, l); AtRest(cfg, t, n) && Payable(t)
  {
    StepFrees(cfg, s, n, l);
    if l.actor < |s.actors| {
      var t := Step(cfg, s, l);
      LocalPays(cfg, s.g, l.actor, s.actors[l.actor], l.choice);
      SumUpdate(s.actors, Looking, l.actor, t.actors[l.actor]);
      LookingNonNegative(t);
    }
  }

  lemma {:induction false} RunPays(cfg: Config, s: State, n: nat, labels: seq<Label>)
    requires AtRest(cfg, s, n) && AsksNothing(labels) && Payable(s)
    ensures var t := Run(cfg, s, labels); AtRest(cfg, t, n) && Payable(t)
    decreases |labels|
  {
    if labels != [] {
      assert !labels[0].choice.op.SetMaxConns? && AsksNothing(labels[1..]);
      StepPays(cfg, s, n, labels[0]);
      RunPays(cfg, Step(cfg, s, labels[0]), n, labels[1..]);
    }
  }

  lemma NobodyLeft(s: State)
    requires Sum(s.actors, Looking) == 0 && Sum(s.actors, Sending) == 0
    ensures AllGivenBack(s)
  {
    forall pc | pc in s.actors ensures GivenBack(pc) {
      var i :| 0 <= i < |s.actors| && s.actors[i] == pc;
      forall q | q in s.actors ensures Looking(q) >= 0 { LookingIsAPermit(q); }
      SumAtLeast(s.actors, Looking, i);
      SumAtLeast(s.actors, Sending, i);
      LookingIsAPermit(pc);
    }
  }

  lemma NobodyLooks(s: State)
    requires AllGivenBack(s)
    ensures Sum(s.actors, Looking) == 0
  {
    SumIsZero(s.actors, Looking);
  }

  /** More debt than there are permits to pay it, and a schedule in which every permit comes
      back and the debt stands. */
  lemma DebtStands(cfg: Config, s: State, n: nat) returns (more: seq<Label>)
    requires AtRest(cfg, s, n) && !Payable(s)
    ensures AsksNothing(more) && AllGivenBack(Run(cfg, s, more)) && Run(cfg, s, more).g.debt > 0
  {
    var looks := AllLook(cfg, s, 0);
    var t := Run(cfg, s, looks);
    RunKeepsInv(cfg, s, looks);
    assert AtRest(cfg, t, n);
    var sends := AllSend(cfg, t, n);
    RunConcat(cfg, s, looks, sends);
    NobodyLeft(Run(cfg, t, sends));
    more := looks + sends;
  }

  /** Once a resize has returned, the debt is paid by the time every permit is back, in any
      continuation, if and only if it is no more than the permits whose release has still to
      look at it. What a closing drain has taken is not given back and does not count. */
  lemma DebtIsPaidExactly(cfg: Config, s: State, n: nat)
    requires AtRest(cfg, s, n)
    ensures (forall more: seq<Label> :: AsksNothing(more) && AllGivenBack(Run(cfg, s, more))
               ==> Run(cfg, s, more).g.debt == 0)
            <==> Payable(s)
  {
    if Payable(s) {
      forall more: seq<Label> | AsksNothing(more) && AllGivenBack(Run(cfg, s, more))
        ensures Run(cfg, s, more).g.debt == 0
      {
        RunPays(cfg, s, n, more);
        NobodyLooks(Run(cfg, s, more));
      }
    } else {
      var more := DebtStands(cfg, s, n);
      assert AsksNothing(more) && AllGivenBack(Run(cfg, s, more));
    }
  }

  /** What a closing drain has taken. */
  function Reclaimed(pc: PC): int { if Drains(pc) then PoolInvariant.Permits(pc) else 0 }

  /** That is the same as saying that no more permits than the ceiling are free, past the
      look at the debt or drained. */
  lemma PayableIsFreeing(cfg: Config, s: State, n: nat)
    requires AtRest(cfg, s, n)
    ensures Payable(s) <==> Freeing(s) + Sum(s.actors, Reclaimed) <= n
  {
    NothingUnfinished(cfg, s, n);
    var kept := (pc: PC) => Looking(pc) + Sending(pc);
    SumAdds(s.actors, Looking, Sending, kept);
    SumAdds(s.actors, kept, Reclaimed, PoolInvariant.Permits);
  }

  // ---- and a run that leaves some ---------------------------------------------------

  /** The caller's dial failed, and its release has found no debt. */
  lemma CallerGivesUp()
    ensures Leads(Called(1, 0, 0, 0, Idle), Called(0, 0, 0, 0, Putting(Finish, Send)))
  {
    var s, l := Called(1, 0, 0, 0, Idle), Label(1, ASK);
    CallerReserves();
    Then(s, Called(0, 1, 0, 0, Reserving(Caller, Dial)), Label(1, REFUSE),
         Called(0, 1, 0, 0, Reserving(Caller, Undial)));
    Then(s, Called(0, 1, 0, 0, Reserving(Caller, Undial)), l, Called(0, 0, 0, 0, Putting(Finish, LoadDebt)));
    Then(s, Called(0, 0, 0, 0, Putting(Finish, LoadDebt)), l, Called(0, 0, 0, 0, Putting(Finish, Send)));
  }

  function Owing(ceiling: nat, debt: nat, lock: Option<nat>, resizer: PC): State {
    At(0, ceiling, debt, 0, 0, 0, lock, EMPTY, Putting(Finish, Send), resizer)
  }

  lemma ShrinkOwes()
    ensures Leads(Called(1, 0, 0, 0, Idle), Owing(0, 0, Some(2), Resizing(0, -1, AddDebt)))
  {
    var s, l := Called(1, 0, 0, 0, Idle), Label(2, SHRINK);
    CallerGivesUp();
    Then(s, Owing(1, 0, None, Idle), l, Owing(1, 0, None, Resizing(0, 0, Lock)));
    Then(s, Owing(1, 0, None, Resizing(0, 0, Lock)), l, Owing(1, 0, Some(2), Resizing(0, 0, Publish)));
    var published := Owing(1, 0, Some(2), Resizing(0, 0, SwapLimit));
    published := published.(g := published.g.(maxConns := 0));
    Then(s, Owing(1, 0, Some(2), Resizing(0, 0, Publish)), l, published);
    Then(s, published, l, Owing(0, 0, Some(2), Resizing(0, -1, Loop)));
    Then(s, Owing(0, 0, Some(2), Resizing(0, -1, Loop)), l, Owing(0, 0, Some(2), Resizing(0, -1, AddDebt)));
  }

  lemma ShrinkUnlocks()
    ensures Leads(Called(1, 0, 0, 0, Idle), Owing(0, 1, None, Idle))
  {
    var s, l := Called(1, 0, 0, 0, Idle), Label(2, SHRINK);
    ShrinkOwes();
    Then(s, Owing(0, 0, Some(2), Resizing(0, -1, AddDebt)), l, Owing(0, 1, Some(2), Resizing(0, 0, Loop)));
    Then(s, Owing(0, 1, Some(2), Resizing(0, 0, Loop)), l, Owing(0, 1, Some(2), Resizing(0, 0, TrimTest)));
    Then(s, Owing(0, 1, Some(2), Resizing(0, 0, TrimTest)), l, Owing(0, 1, Some(2), Resizing(0, 0, Unlock)));
    Then(s, Owing(0, 1, Some(2), Resizing(0, 0, Unlock)), l, Owing(0, 1, None, Idle));
  }

  /** SetMaxConns(0) has returned, every permit is back and nobody is in the pool; and one
      permit is free and one is owed, under a ceiling of none. */
  lemma DebtOutlives()
    ensures exists labels :: var s := Run(ONE, Init(ONE, 2), labels);
      && s.actors == [Maintaining(WarmLoad), Idle, Idle] && s.g.maxConns == 0 && s.g.limit == 0
      && s.g.debt == 1 && s.g.tokens == 1
  {
    var s := Called(1, 0, 0, 0, Idle);
    assert Init(ONE, 2).g.shards == EMPTY && Init(ONE, 2).actors == s.actors;
    ShrinkUnlocks();
    var done := At(1, 0, 1, 0, 0, 0, None, EMPTY, Idle, Idle);
    Then(s, Owing(0, 1, None, Idle), Label(1, ASK), done);
    var labels :| Run(ONE, s, labels) == done;
    assert Run(ONE, Init(ONE, 2), labels).g.tokens == 1;
  }
}
