/** A run in which a shrink leaves a surplus connection open with nobody to judge it: the
    release that would have was already past its comparison when the ceiling moved. */
module PoolSurplus {
  import opened Options
  import opened PoolProtocol
  import opened Striping
  import opened PoolInvariant
  import opened PoolShrink

  const ONE: Config := Config(1, 1, 0)
  const ASK: Choice := GRANTED
  const SHRINK: Choice := Choice(true, 0, SetMaxConns(0), {}, Expired)
  const EMPTY: seq<seq<Conn>> := [[], [], [], [], [], [], [], [], [], [], [], [], [], [], [], []]

  /** The maintainer, a caller and a resizer, on a pool of one connection. */
  function At(tokens: nat, ceiling: nat, debt: nat, total: int, out: int, next: nat, lock: Option<nat>,
              shards: seq<seq<Conn>>, caller: PC, resizer: PC): State
    requires |shards| == SHARDS
  {
    State(Shared(false, false, false, None, lock, ceiling, ceiling, tokens, debt, total, out,
                 shards, [], [0, 0, 0, 0], next),
          [Maintaining(WarmLoad), caller, resizer])
  }

  ghost predicate Leads(s: State, t: State)
    requires Shaped(s.g)
  {
    exists labels :: Run(ONE, s, labels) == t
  }

  lemma Go(s: State, l: Label, t: State)
    requires Shaped(s.g) && Step(ONE, s, l) == t
    ensures Leads(s, t)
  {
    assert [l][1..] == [];
    assert Run(ONE, s, [l]) == Run(ONE, t, []) == t;
  }

  lemma Chain(s: State, t: State, u: State)
    requires Shaped(s.g) && Shaped(t.g) && Leads(s, t) && Leads(t, u)
    ensures Leads(s, u)
  {
    var a :| Run(ONE, s, a) == t;
    var b :| Run(ONE, t, b) == u;
    RunConcat(ONE, s, a, b);
  }

  lemma Then(s: State, t: State, l: Label, u: State)
    requires Shaped(s.g) && Shaped(t.g) && Leads(s, t) && Step(ONE, t, l) == u
    ensures Leads(s, u)
  {
    Go(t, l, u);
    Chain(s, t, u);
  }

  // ---- the caller -------------------------------------------------------------------

  function Called(tokens: nat, total: int, out: int, next: nat, caller: PC): State {
    At(tokens, 1, 0, total, out, next, None, EMPTY, caller, Idle)
  }

  lemma {:induction false} CallerProbes(k: nat)
    requires k <= SHARDS
    ensures Leads(Called(1, 0, 0, 0, Idle), Called(0, 0, 0, 0, Probe(ForTake, 0, k)))
  {
    var s := Called(1, 0, 0, 0, Idle);
    if k == 0 {
      Go(s, Label(1, ASK), Called(1, 0, 0, 0, Waiting));
      Then(s, Called(1, 0, 0, 0, Waiting), Label(1, ASK), Called(0, 0, 0, 0, Admitted));
      Then(s, Called(0, 0, 0, 0, Admitted), Label(1, ASK), Called(0, 0, 0, 0, Probe(ForTake, 0, 0)));
    } else {
      CallerProbes(k - 1);
      Then(s, Called(0, 0, 0, 0, Probe(ForTake, 0, k - 1)), Label(1, ASK), Called(0, 0, 0, 0, Probe(ForTake, 0, k)));
    }
  }

  lemma CallerReserves()
    ensures Leads(Called(1, 0, 0, 0, Idle), Called(0, 1, 0, 0, Reserving(Caller, Dial)))
  {
    var s, l := Called(1, 0, 0, 0, Idle), Label(1, ASK);
    CallerProbes(SHARDS);
    Then(s, Called(0, 0, 0, 0, Probe(ForTake, 0, SHARDS)), l, Called(0, 0, 0, 0, Reserving(Caller, LoadTotal)));
    Then(s, Called(0, 0, 0, 0, Reserving(Caller, LoadTotal)), l, Called(0, 0, 0, 0, Reserving(Caller, LoadMax(0))));
    Then(s, Called(0, 0, 0, 0, Reserving(Caller, LoadMax(0))), l, Called(0, 0, 0, 0, Reserving(Caller, Swap(0))));
    Then(s, Called(0, 0, 0, 0, Reserving(Caller, Swap(0))), l, Called(0, 1, 0, 0, Reserving(Caller, Dial)));
  }

  lemma CallerDials()
    ensures Leads(Called(1, 0, 0, 0, Idle), Called(0, 1, 1, 1, Holding(0, 0, CheckedOut)))
  {
    var s, l := Called(1, 0, 0, 0, Idle), Label(1, ASK);
    CallerReserves();
    Then(s, Called(0, 1, 0, 0, Reserving(Caller, Dial)), l, Called(0, 1, 0, 1, Holding(0, 0, Got)));
    Then(s, Called(0, 1, 0, 1, Holding(0, 0, Got)), l, Called(0, 1, 1, 1, Holding(0, 0, CheckedOut)));
  }

  lemma CallerIsJudged()
    ensures Leads(Called(1, 0, 0, 0, Idle), Called(0, 1, 0, 1, Holding(0, 0, Recycle)))
  {
    var s, l := Called(1, 0, 0, 0, Idle), Label(1, ASK);
    CallerDials();
    Then(s, Called(0, 1, 1, 1, Holding(0, 0, CheckedOut)), l, Called(0, 1, 1, 1, Holding(0, 0, Uncount)));
    Then(s, Called(0, 1, 1, 1, Holding(0, 0, Uncount)), l, Called(0, 1, 0, 1, Holding(0, 0, LoadClosed)));
    Then(s, Called(0, 1, 0, 1, Holding(0, 0, LoadClosed)), l, Called(0, 1, 0, 1, Holding(0, 0, Recycle)));
  }

  lemma CallerReleases()
    ensures Leads(Called(1, 0, 0, 0, Idle), Called(0, 1, 0, 1, Holding(0, 0, Push)))
  {
    var s, l := Called(1, 0, 0, 0, Idle), Label(1, ASK);
    CallerIsJudged();
    Then(s, Called(0, 1, 0, 1, Holding(0, 0, Recycle)), l, Called(0, 1, 0, 1, Holding(0, 0, LoadOwned)));
    Then(s, Called(0, 1, 0, 1, Holding(0, 0, LoadOwned)), l, Called(0, 1, 0, 1, Holding(0, 0, Compare(1))));
    Then(s, Called(0, 1, 0, 1, Holding(0, 0, Compare(1))), l, Called(0, 1, 0, 1, Holding(0, 0, Push)));
  }

  // ---- the resizer ------------------------------------------------------------------

  function Resized(ceiling: nat, debt: nat, lock: Option<nat>, resizer: PC): State {
    At(0, ceiling, debt, 1, 0, 1, lock, EMPTY, Holding(0, 0, Push), resizer)
  }

  lemma ShrinkStarts()
    ensures Leads(Called(1, 0, 0, 0, Idle), Resized(0, 1, Some(2), Resizing(0, 0, TrimTest)))
  {
    var s, l := Called(1, 0, 0, 0, Idle), Label(2, SHRINK);
    CallerReleases();
    Then(s, Resized(1, 0, None, Idle), l, Resized(1, 0, None, Resizing(0, 0, Lock)));
    Then(s, Resized(1, 0, None, Resizing(0, 0, Lock)), l, Resized(1, 0, Some(2), Resizing(0, 0, Publish)));
    var published := Resized(1, 0, Some(2), Resizing(0, 0, SwapLimit));
    published := published.(g := published.g.(maxConns := 0));
    Then(s, Resized(1, 0, Some(2), Resizing(0, 0, Publish)), l, published);
    Then(s, published, l, Resized(0, 0, Some(2), Resizing(0, -1, Loop)));
    Then(s, Resized(0, 0, Some(2), Resizing(0, -1, Loop)), l, Resized(0, 0, Some(2), Resizing(0, -1, AddDebt)));
    Then(s, Resized(0, 0, Some(2), Resizing(0, -1, AddDebt)), l, Resized(0, 1, Some(2), Resizing(0, 0, Loop)));
    Then(s, Resized(0, 1, Some(2), Resizing(0, 0, Loop)), l, Resized(0, 1, Some(2), Resizing(0, 0, TrimTest)));
  }

  lemma {:induction false} ShrinkProbes(k: nat)
    requires k <= SHARDS
    ensures Leads(Called(1, 0, 0, 0, Idle), Resized(0, 1, Some(2), Probe(ForTrim(0), 0, k)))
  {
    var s, l := Called(1, 0, 0, 0, Idle), Label(2, SHRINK);
    if k == 0 {
      ShrinkStarts();
      Then(s, Resized(0, 1, Some(2), Resizing(0, 0, TrimTest)), l, Resized(0, 1, Some(2), Probe(ForTrim(0), 0, 0)));
    } else {
      ShrinkProbes(k - 1);
      Then(s, Resized(0, 1, Some(2), Probe(ForTrim(0), 0, k - 1)), l, Resized(0, 1, Some(2), Probe(ForTrim(0), 0, k)));
    }
  }

  lemma ShrinkReturns()
    ensures Leads(Called(1, 0, 0, 0, Idle), Resized(0, 1, None, Idle))
  {
    var s, l := Called(1, 0, 0, 0, Idle), Label(2, SHRINK);
    ShrinkProbes(SHARDS);
    Then(s, Resized(0, 1, Some(2), Probe(ForTrim(0), 0, SHARDS)), l, Resized(0, 1, Some(2), Resizing(0, 0, Unlock)));
    Then(s, Resized(0, 1, Some(2), Resizing(0, 0, Unlock)), l, Resized(0, 1, None, Idle));
  }

  // ---- the surplus ------------------------------------------------------------------

  /** SetMaxConns(0) has returned, every permit is back, nothing is checked out and nobody
      is in the pool; and one connection is open, idle, above the ceiling. */
  lemma SurplusSurvives()
    ensures exists labels :: var s := Run(ONE, Init(ONE, 2), labels);
      && s.actors == [Maintaining(WarmLoad), Idle, Idle] && s.g.maxConns == 0 && s.g.debt == 0
      && s.g.checkedOut == 0 && s.g.total == 1 && s.g.shards == EMPTY[0 := [0]]
  {
    var s, l := Called(1, 0, 0, 0, Idle), Label(1, ASK);
    assert Init(ONE, 2).g.shards == EMPTY && Init(ONE, 2).actors == s.actors;
    ShrinkReturns();
    var one := EMPTY[0 := [0]];
    var pushed := At(0, 0, 1, 1, 0, 1, None, one, Putting(Finish, LoadDebt), Idle);
    var paying := At(0, 0, 1, 1, 0, 1, None, one, Putting(Finish, PayDebt(1)), Idle);
    var done := At(0, 0, 0, 1, 0, 1, None, one, Idle, Idle);
    assert EMPTY[0] + [0] == [0];
    assert Step(ONE, Resized(0, 1, None, Idle), l).g.shards == one;
    Then(s, Resized(0, 1, None, Idle), l, pushed);
    Then(s, pushed, l, paying);
    Then(s, paying, l, done);
    var labels :| Run(ONE, s, labels) == done;
  }
}
