/** The pooling engine as a transition system.

    An actor is one call in progress: a caller from Acquire to the end of Release, the
    maintainer, a resizer, an evictor or the closer. Its program counter says which
    atomic operation it performs next, and every step is one load, store,
    compare-and-swap, permit operation or locked shard operation. A Handle whose
    released word is still 0 is an actor holding a connection at CheckedOut; the Release
    that wins the compare-and-swap moves it on, and one that loses changes nothing. */
module PoolProtocol {
  import opened Options
  import opened Partition
  import opened Striping

  type Conn = nat

  datatype Discard = Expired | Unhealthy | Evicted | ShutDown

  const DISCARD_COUNT: nat := 4

  function Index(why: Discard): nat {
    match why
    case Expired => 0
    case Unhealthy => 1
    case Evicted => 2
    case ShutDown => 3
  }

  /** The part of the configuration the protocol reads, with defaults applied:
      WithDefaults raises MaxConnsLimit to at least MaxConns. */
  datatype Config = Config(maxConns: nat, maxConnsLimit: nat, minConns: nat)

  ghost predicate ValidConfig(cfg: Config) {
    cfg.maxConns <= cfg.maxConnsLimit
  }

  /** Everything the actors share. */
  datatype Shared = Shared(
    closed: bool,              // Core.closed
    cancelled: bool,           // bgCtx is done
    bgDone: bool,              // the maintainer has returned
    closer: Option<nat>,       // closeOnce: the actor that won it
    resizer: Option<nat>,      // resizeMu: the actor holding it
    maxConns: nat,             // Core.maxConns
    limit: nat,                // permits.limit
    tokens: nat,               // len(permits.tokens)
    debt: nat,                 // permits.debt
    total: int,                // Core.totalConns
    checkedOut: int,           // Core.checkedOut
    shards: seq<seq<Conn>>,    // Core.shards
    dead: seq<Conn>,           // every connection the driver has closed, in order
    discarded: seq<nat>,       // Core.discarded, by reason
    next: Conn)                // the connections dialled so far are those below next

  datatype Purpose = ForTake | ForTrim(n: nat)
  datatype Who = Caller | Warmer
  datatype Sweep = Evicting | Reaping | Draining(reclaimed: nat)
  datatype AfterPut = Finish | WarmAgain | WarmStop

  /** Where destroy returns to. */
  datatype Cont =
    | ToProbe(p: Purpose, start: nat, k: nat)
    | ToPut
    | ToTrim(n: nat)
    | ToSweep(kind: Sweep, k: nat)

  datatype ReservePc = LoadTotal | LoadMax(cur: int) | Swap(cur: int) | Full | Dial | Undial
  datatype HoldPc = Judge(p: Purpose, start: nat, k: nat) | Got | CheckedOut | Uncount | LoadClosed | Recycle
                  | LoadOwned | Compare(seen: int) | Push | WarmPush
  datatype PutPc = LoadDebt | PayDebt(d: nat) | Send
  datatype DestroyPc = CloseConn | Count | Free
  datatype ResizePc = Lock | Publish | SwapLimit | Loop | AddDebt | LoadDebtR | PayDebtR(d: nat) | SendR
                    | TrimTest | Unlock
  datatype MaintainPc = WarmLoad | WarmClosed | WarmWait | Select | Retired
  datatype ClosePc = SetClosed | Cancel | AwaitBg | LoadCeiling | Drain(n: nat) | Done

  datatype PC =
    | Idle
    | Waiting                                                   // Acquire, no permit yet
    | Admitted                                                  // Acquire, permit just taken
    | Probe(p: Purpose, start: nat, k: nat)                     // popIdle, k shards behind it
    | Reserving(w: Who, res: ReservePc)                         // reserveSlot, connect, releaseSlot
    | Holding(c: Conn, sh: nat, hold: HoldPc)                   // owns one open connection
    | Putting(a: AfterPut, put: PutPc)                          // permits.release
    | Destroying(cs: seq<Conn>, why: Option<Discard>, back: Cont, des: DestroyPc)
    | Resizing(n: nat, delta: int, rz: ResizePc)                // SetMaxConns
    | Sweeping(kind: Sweep, k: nat)                             // EvictIdle, reapExpired, Close
    | Maintaining(mt: MaintainPc)
    | Shutting(reclaimed: nat, cl: ClosePc)

  datatype Op = Acquire | SetMaxConns(n: int) | EvictIdle | Close

  /** What the environment decides at a step: the branch of a select or of a driver
      call, a random shard, the connections a predicate matches, a discard reason. */
  datatype Choice = Choice(yes: bool, pick: nat, op: Op, matches: set<Conn>, reason: Discard)

  predicate Shaped(g: Shared) {
    |g.shards| == SHARDS && |g.discarded| == DISCARD_COUNT
  }

  // ---- one atomic step of one actor -------------------------------------------------

  function Begin(cfg: Config, g: Shared, me: nat, ch: Choice): (Shared, PC) {
    match ch.op
    case Acquire => (g, if g.closed then Idle else Waiting)
    case SetMaxConns(n) =>
      (g, if g.closed || n < cfg.minConns || n > cfg.maxConnsLimit then Idle else Resizing(n, 0, Lock))
    case EvictIdle => (g, if g.closed then Idle else Sweeping(Evicting, 0))
    case Close => if g.closer.Some? then (g, Idle) else (g.(closer := Some(me)), Shutting(0, SetClosed))
  }

  /** tryAcquire, then wait: the caller gets a token or gives up. */
  function WaitStep(g: Shared, ch: Choice): (Shared, PC) {
    if !ch.yes then (g, Idle)
    else if g.tokens > 0 then (g.(tokens := g.tokens - 1), Admitted)
    else (g, Waiting)
  }

  function AdmittedStep(g: Shared, ch: Choice): (Shared, PC) {
    (g, if g.closed then Putting(Finish, LoadDebt) else Probe(ForTake, ch.pick % SHARDS, 0))
  }

  /** One locked pop of popIdle. */
  function ProbeStep(g: Shared, p: Purpose, start: nat, k: nat): (Shared, PC)
    requires Shaped(g)
  {
    if k >= SHARDS then
      (g, if p.ForTake? then Reserving(Caller, LoadTotal) else Resizing(p.n, 0, Unlock))
    else
      var idx := ShardAt(start, k);
      var conns := g.shards[idx];
      if conns == [] then (g, Probe(p, start, k + 1))
      else (g.(shards := g.shards[idx := conns[..|conns| - 1]]), Holding(conns[|conns| - 1], idx, Judge(p, start, k)))
  }

  function ReserveStep(g: Shared, w: Who, res: ReservePc, ch: Choice): (Shared, PC) {
    match res
    case LoadTotal => (g, Reserving(w, LoadMax(g.total)))
    case LoadMax(cur) =>
      (g, if cur < g.maxConns then Reserving(w, Swap(cur))
          else if w.Caller? then Reserving(w, Full)
          else Putting(WarmStop, LoadDebt))
    case Swap(cur) =>
      if g.total == cur then (g.(total := cur + 1), Reserving(w, Dial)) else (g, Reserving(w, LoadTotal))
    case Full => (g, if ch.yes then Probe(ForTake, ch.pick % SHARDS, 0) else Putting(Finish, LoadDebt))
    case Dial =>
      if !ch.yes then (g, Reserving(w, Undial))
      else (g.(next := g.next + 1), Holding(g.next, ch.pick % SHARDS, if w.Caller? then Got else WarmPush))
    case Undial =>
      (g.(total := g.total - 1), Putting(if w.Caller? then Finish else WarmStop, LoadDebt))
  }

  function Pushed(g: Shared, sh: nat, c: Conn): Shared
    requires Shaped(g)
  {
    g.(shards := g.shards[sh % SHARDS := g.shards[sh % SHARDS] + [c]])
  }

  /** From popIdle's health test through the life of a handle to the end of release. */
  function HoldStep(g: Shared, c: Conn, sh: nat, hold: HoldPc, ch: Choice): (Shared, PC)
    requires Shaped(g)
  {
    match hold
    case Judge(p, start, k) =>
      (g, if !ch.yes then Destroying([c], None, ToProbe(p, start, k), CloseConn)
          else if p.ForTake? then Holding(c, sh, Got)
          else Destroying([c], Some(Evicted), ToTrim(p.n), CloseConn))
    case Got => (g.(checkedOut := g.checkedOut + 1), Holding(c, sh, CheckedOut))
    case CheckedOut => (g, Holding(c, sh, if ch.yes then Uncount else CheckedOut))
    case Uncount => (g.(checkedOut := g.checkedOut - 1), Holding(c, sh, LoadClosed))
    case LoadClosed =>
      (g, if g.closed then Destroying([c], Some(ShutDown), ToPut, CloseConn) else Holding(c, sh, Recycle))
    case Recycle => (g, if ch.yes then Holding(c, sh, LoadOwned) else Destroying([c], None, ToPut, CloseConn))
    case LoadOwned => (g, Holding(c, sh, Compare(g.total)))
    case Compare(seen) =>
      (g, if seen > g.maxConns then Destroying([c], Some(Evicted), ToPut, CloseConn) else Holding(c, sh, Push))
    case Push => (Pushed(g, sh, c), Putting(Finish, LoadDebt))
    case WarmPush => (Pushed(g, sh, c), Putting(WarmAgain, LoadDebt))
  }

  function AfterPutPc(a: AfterPut): PC {
    match a
    case Finish => Idle
    case WarmAgain => Maintaining(WarmLoad)
    case WarmStop => Maintaining(Select)
  }

  function PutStep(cfg: Config, g: Shared, a: AfterPut, put: PutPc): (Shared, PC) {
    match put
    case LoadDebt => (g, Putting(a, if g.debt == 0 then Send else PayDebt(g.debt)))
    case PayDebt(d) =>
      if g.debt == d && d > 0 then (g.(debt := d - 1), AfterPutPc(a)) else (g, Putting(a, LoadDebt))
    case Send =>
      (if g.tokens < cfg.maxConnsLimit then g.(tokens := g.tokens + 1) else g, AfterPutPc(a))
  }

  function Resume(back: Cont): PC {
    match back
    case ToProbe(p, start, k) => Probe(p, start, k)
    case ToPut => Putting(Finish, LoadDebt)
    case ToTrim(n) => Resizing(n, 0, TrimTest)
    case ToSweep(kind, k) => Sweeping(kind, k)
  }

  /** whyUnusable names one of these two; the other reasons are passed in. */
  function Reason(why: Option<Discard>, ch: Choice): Discard {
    if why.Some? then why.value else if ch.reason.Expired? then Expired else Unhealthy
  }

  function DestroyStep(g: Shared, cs: seq<Conn>, why: Option<Discard>,
                       back: Cont, des: DestroyPc, ch: Choice): (Shared, PC)
    requires Shaped(g)
  {
    match des
    case CloseConn =>
      if cs == [] then (g, Resume(back))
      else (g.(dead := g.dead + [cs[0]]), Destroying(cs[1..], why, back, Count))
    case Count =>
      var r := Index(Reason(why, ch));
      (g.(discarded := g.discarded[r := g.discarded[r] + 1]), Destroying(cs, why, back, Free))
    case Free => (g.(total := g.total - 1), Destroying(cs, why, back, CloseConn))
  }

  function ResizeStep(cfg: Config, g: Shared, me: nat, n: nat, delta: int, rz: ResizePc, ch: Choice): (Shared, PC) {
    match rz
    case Lock =>
      if g.resizer.None? then (g.(resizer := Some(me)), Resizing(n, 0, Publish)) else (g, Resizing(n, 0, Lock))
    case Publish => (g.(maxConns := n), Resizing(n, 0, SwapLimit))
    case SwapLimit => (g.(limit := n), Resizing(n, n - g.limit, Loop))
    case Loop =>
      if delta == 0 then (g, Resizing(n, 0, TrimTest))
      else if delta > 0 then (g, Resizing(n, delta, LoadDebtR))
      else if g.tokens > 0 then (g.(tokens := g.tokens - 1), Resizing(n, delta + 1, Loop))
      else (g, Resizing(n, delta, AddDebt))
    case AddDebt => (g.(debt := g.debt + 1), Resizing(n, delta + 1, Loop))
    case LoadDebtR => (g, Resizing(n, delta, if g.debt == 0 then SendR else PayDebtR(g.debt)))
    case PayDebtR(d) =>
      if g.debt == d && d > 0 then (g.(debt := d - 1), Resizing(n, delta - 1, Loop))
      else (g, Resizing(n, delta, LoadDebtR))
    case SendR =>
      (if g.tokens < cfg.maxConnsLimit then g.(tokens := g.tokens + 1) else g, Resizing(n, delta - 1, Loop))
    case TrimTest =>
      (g, if g.total > n then Probe(ForTrim(n), ch.pick % SHARDS, 0) else Resizing(n, 0, Unlock))
    case Unlock => (g.(resizer := None), Idle)
  }

  function AfterSweep(kind: Sweep): PC {
    match kind
    case Evicting => Idle
    case Reaping => Maintaining(WarmLoad)
    case Draining(r) => Shutting(r, Done)
  }

  function SweepReason(kind: Sweep): Option<Discard> {
    match kind
    case Evicting => Some(Evicted)
    case Reaping => None
    case Draining(_) => Some(ShutDown)
  }

  /** EvictIdle and Close take everything; the reaper takes what its predicate matches. */
  function Chosen(kind: Sweep, ch: Choice): Conn -> bool {
    c => kind.Reaping? ==> c in ch.matches
  }

  /** One locked takeIf or drain. */
  function SweepStep(g: Shared, kind: Sweep, k: nat, ch: Choice): (Shared, PC)
    requires Shaped(g)
  {
    if k >= SHARDS then (g, AfterSweep(kind))
    else
      (g.(shards := g.shards[k := Kept(g.shards[k], Chosen(kind, ch))]),
       Destroying(Taken(g.shards[k], Chosen(kind, ch)), SweepReason(kind), ToSweep(kind, k + 1), CloseConn))
  }

  function MaintainStep(cfg: Config, g: Shared, mt: MaintainPc, ch: Choice): (Shared, PC) {
    match mt
    case WarmLoad => (g, Maintaining(if cfg.minConns > 0 && g.total < cfg.minConns then WarmClosed else Select))
    case WarmClosed => (g, Maintaining(if g.closed then Select else WarmWait))
    case WarmWait =>
      if ch.yes && g.tokens > 0 then (g.(tokens := g.tokens - 1), Reserving(Warmer, LoadTotal))
      else (g, Maintaining(if g.cancelled then Select else WarmWait))
    case Select =>
      if !ch.yes then (g, Sweeping(Reaping, 0))
      else if g.cancelled then (g.(bgDone := true), Maintaining(Retired))
      else (g, Maintaining(Select))
    case Retired => (g, Maintaining(Retired))
  }

  function ShutStep(g: Shared, r: nat, cl: ClosePc, ch: Choice): (Shared, PC) {
    match cl
    case SetClosed => (g.(closed := true), Shutting(r, Cancel))
    case Cancel => (g.(cancelled := true), Shutting(r, AwaitBg))
    case AwaitBg => (g, Shutting(r, if g.bgDone then LoadCeiling else AwaitBg))
    case LoadCeiling => (g, Shutting(r, Drain(g.maxConns)))
    case Drain(n) =>
      if r >= n || !ch.yes then (g, Sweeping(Draining(r), 0))
      else if g.tokens > 0 then (g.(tokens := g.tokens - 1), Shutting(r + 1, Drain(n)))
      else (g, Shutting(r, Drain(n)))
    case Done => (g, Shutting(r, Done))
  }

  function Local(cfg: Config, g: Shared, me: nat, pc: PC, ch: Choice): (Shared, PC)
    requires Shaped(g)
  {
    match pc
    case Idle => Begin(cfg, g, me, ch)
    case Waiting => WaitStep(g, ch)
    case Admitted => AdmittedStep(g, ch)
    case Probe(p, start, k) => ProbeStep(g, p, start, k)
    case Reserving(w, res) => ReserveStep(g, w, res, ch)
    case Holding(c, sh, hold) => HoldStep(g, c, sh, hold, ch)
    case Putting(a, put) => PutStep(cfg, g, a, put)
    case Destroying(cs, why, back, des) => DestroyStep(g, cs, why, back, des, ch)
    case Resizing(n, delta, rz) => ResizeStep(cfg, g, me, n, delta, rz, ch)
    case Sweeping(kind, k) => SweepStep(g, kind, k, ch)
    case Maintaining(mt) => MaintainStep(cfg, g, mt, ch)
    case Shutting(r, cl) => ShutStep(g, r, cl, ch)
  }

  // ---- states and runs --------------------------------------------------------------

  /** Actor 0 is the maintainer that New starts. */
  datatype State = State(g: Shared, actors: seq<PC>)

  datatype Label = Label(actor: nat, choice: Choice)

  function Init(cfg: Config, callers: nat): (s: State)
    ensures Shaped(s.g)
  {
    State(
      Shared(false, false, false, None, None, cfg.maxConns, cfg.maxConns, cfg.maxConns, 0, 0, 0,
             seq(SHARDS, _ => []), [], [0, 0, 0, 0], 0),
      [Maintaining(WarmLoad)] + seq(callers, _ => Idle))
  }

  lemma LocalShaped(cfg: Config, g: Shared, me: nat, pc: PC, ch: Choice)
    requires Shaped(g)
    ensures Shaped(Local(cfg, g, me, pc, ch).0)
  {
  }

  function Step(cfg: Config, s: State, l: Label): (t: State)
    requires Shaped(s.g)
    ensures Shaped(t.g) && |t.actors| == |s.actors|
  {
    if l.actor >= |s.actors| then s
    else
      LocalShaped(cfg, s.g, l.actor, s.actors[l.actor], l.choice);
      var (g, pc) := Local(cfg, s.g, l.actor, s.actors[l.actor], l.choice);
      State(g, s.actors[l.actor := pc])
  }

  /** The state after a run. Any interleaving is some sequence of labels. */
  function Run(cfg: Config, s: State, labels: seq<Label>): (t: State)
    requires Shaped(s.g)
    ensures Shaped(t.g) && |t.actors| == |s.actors|
    decreases |labels|
  {
    if labels == [] then s else Run(cfg, Step(cfg, s, labels[0]), labels[1..])
  }

  lemma {:induction false} RunConcat(cfg: Config, s: State, a: seq<Label>, b: seq<Label>)
    requires Shaped(s.g)
    ensures Run(cfg, s, a + b) == Run(cfg, Run(cfg, s, a), b)
    decreases |a|
  {
    if a == [] {
      assert a + b == b;
    } else {
      assert (a + b)[0] == a[0] && (a + b)[1..] == a[1..] + b;
      RunConcat(cfg, Step(cfg, s, a[0]), a[1..], b);
    }
  }
}
