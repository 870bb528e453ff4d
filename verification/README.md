# gpool, modelled and proved in Dafny

gpool is a database connection pool with a PostgreSQL proxy and three change-data-capture
streams built on it. This project models the parts whose correctness is an argument rather
than a reading, and proves that argument for every run.

| part | files |
|---|---|
| The pooling engine under any interleaving | `PoolProtocol`, `PoolInvariant`, `PoolTheorems`, `PoolVerdicts`, `PoolClose` |
| Its operations undisturbed | `PoolRefines`, `PoolAlone`, `PoolDuties` |
| Shrinking it | `PoolShrink`, `PoolTrim`, `PoolSettles`, `PoolSurplus`, `PoolReturns`, `PoolDebt`, `PoolOwes` |
| Its sequential pieces as objects | `Permits`, `Shards`, `Striping`, `Handles`, `Partition` |
| The proxy's statement sets, wire names, and the server they are for | `Statements`, `StatementSet`, `Recency`, `Wire`, `Relay`, `Server` |
| Prepared-statement virtualisation and handover | `Completions`, `Reconcile`, `Session`, `Proxy`, `ProxyTheorems`, `Handover`, `ReplyOrder` |
| PostgreSQL position confirmation | `PgStream`, `PgTheorems`, `PgReader` |
| SQL Server polling, sorting, pairing | `Lsn`, `ChangeOrder`, `Pairing`, `Polling`, `PollingTheorems` |
| MySQL positions | `Binlog`, `BinlogTheorems`, `BinlogResume`, `BinlogPosition` |
| Shared small things | `Bytes`, `Options`, `Sequences`, `Sums`, `Text` |

**The pool** is a transition system: every actor (a caller from Acquire to the end of
Release, the maintainer, a resizer, an evictor, the closer) has a program counter, and a
step is one atomic load, store or swap, one token operation, or one locked shard operation.
What the driver, the clock and the scheduler decide is a choice made afresh at each step. A
handle is its actor's program counter while it holds a connection: the Release that wins the
compare-and-swap moves the actor on, and one that loses moves nothing, as `Handles` proves of
the object.

**The proxy** is many sessions over many pooled backends. What the server does is stated on
its own, in `Server`, from the bytes of the protocol and not through what the proxy reads in
them: each backend's server reads what was written to it in order, keeps a table from
statement name to Parse message, and answers Query, Sync and FunctionCall with a
ReadyForQuery. Each client is shadowed by the table a server of its own would have had;
`faithful` says it has so far kept within the limit and not re-parsed a live name, and the
theorems about what a Bind finds speak of clients that are. The sessions and statement sets
are also classes whose methods are proved to compute the functions the machine runs on.

**The streams** are machines over logs. For PostgreSQL the reader, the consumer and the
server interleave freely, with crashes and resubscriptions; for SQL Server and MySQL the
stream is a class proved equal to a function of what the server answers, and the whole-run
theorems are about that function.

## Where the code and its own words disagree

- The comment on `trimIdle` (`pkg/pooling/core.go:199-200`) says no surplus survives a shrink
  indefinitely. One can: a release already past its comparison pushes a connection the trim
  did not see. `PoolSurplus.SurplusSurvives` is a run that ends with a connection open above
  the ceiling, nothing checked out and nobody left to judge it. `PoolSettles.ShrinkIsExact`
  says exactly when a shrink takes full effect whatever the others do: when no more
  connections than the new ceiling are past that comparison as the ceiling is published.
- The comment on `debt` (`pkg/pooling/permit.go:35-40`) has the next releases swallow their
  tokens. A release that looked before the debt was recorded returns its token, and the debt
  can then stand with every permit back: `PoolDebt.DebtOutlives` is such a run. Once a resize
  has returned the debt is sure to be paid if and only if it is no more than the permits whose
  release has still to look at it (`PoolDebt.DebtIsPaidExactly`). As the resize begins, with
  nobody taking a permit meanwhile, it is sure if and only if the tokens the resize is to take
  are free and the debt already stranded is no more than it hands back
  (`PoolOwes.DebtIsPaidFromTheStart`): with no debt on record, if and only if no more permits
  are out than the new ceiling (`PoolOwes.CoveredIsHeld`), so that any shrink that needs debt
  may leave some. With callers enough to take the tokens first, every shrink may
  (`PoolOwes.RacedResizeIsPayableExactly`).
- The comment on `changesSQL` (`vendors/mssql/cdc/statement.go`) gives the window as
  open at its lower end; the capture function is inclusive at both, as `incrementLSN`'s
  comment says, and the model is inclusive.
- A reply is swallowed by kind, first come: the client's own may be swallowed in an injected
  one's place. Counts always come out right (`ReplyOrder.SwallowingIsComplete`); order does
  not always. `ReplyOrder.OrderIsKeptExactly` says when it does, whatever was injected where.
- A backend can come back to the pool with a client's next batch on its wire.
  `Handover.LeftBehindExactly` says after which messages that can happen.

## Model

| member | source | states |
|---|---|---|
| PoolTheorems.EveryConnectionHasOnePlace | pkg/pooling/core.go:363-387 | in every interleaving each dialled connection is in exactly one of: a shard slot, one actor's hands, the closed list; and nothing undialled is anywhere |
| PoolTheorems.NeverSharedByTwoActors | pkg/pooling/core.go:234-254 | no connection is ever in two actors' hands, nor in a shard while one holds it |
| PoolVerdicts.RejectedIsGone | pkg/pooling/core.go:363-387 | a connection the driver finds unusable, or that comes back unfit, to a closed pool or above the ceiling, is never pooled, judged or handed out again in any continuation, and its holder's next step closes it |
| PoolVerdicts.ClosedServesNobody | pkg/pooling/core.go:234-254 | once the pool is closed no caller without a connection ever gets one, queued for a permit or just given one included, and no call begins |
| PoolVerdicts.CeilingKeepsMin | pkg/pooling/core.go:164-176 | whatever SetMaxConns is asked for, the ceiling never goes below MinConns |
| PoolTheorems.CeilingHolds | pkg/pooling/core.go:292-307 | open connections plus dials in flight never exceed totalConns, which never exceeds the highest ceiling the run asks for |
| PoolTheorems.HardCeilingHolds | pkg/pooling/core.go:164-192 | nor MaxConnsLimit, whatever SetMaxConns is asked for |
| PoolTheorems.PermitsAreConserved | pkg/pooling/permit.go:62-106 | tokens + held - debt is the limit adjusted by the unfinished part of a resize; limit + debt stays within the channel, so no send by a real holder is ever dropped |
| PoolInvariant.SendsAreNeverDropped | pkg/pooling/permit.go:150-162 | the "channel full" default of release and of a growing resize is never taken |
| PoolInvariant.RunKeepsInv | pkg/pooling/core.go:339-566 | all the conservation laws and everything a program counter relies on hold after every run |
| PoolTheorems.DiscardsAddUp | pkg/pooling/core.go:462-469 | each connection is closed at most once, and counted in exactly one discard counter once its destroyer has counted it |
| PoolTheorems.AtTheCeilingSomethingIsComing | pkg/pooling/core.go:280-283 | with limit equal to maxConns and no debt, a permit holder that finds the ceiling reached while owning nothing leaves at least one unit idle or being destroyed by an actor without a permit |
| PoolTheorems.NeverWedged | pkg/pooling/core.go:265-289 | the same in every reachable state, naming the shard or the actor that has it |
| PoolTheorems.OneIterationIsEnough | pkg/pooling/core.go:265-302 | with no one else giving a slot back, one solo iteration of take ends in a connection or a won reservation, whatever the driver says of the idle ones |
| PoolTheorems.TakeIsServedAlone | pkg/pooling/core.go:339-358 | the same for a caller about to probe, after any run |
| PoolClose.DrainSeals | pkg/pooling/core.go:550-566 | once the drain has every permit, nobody else owns a connection, a slot or a permit, because release returns its permit last |
| PoolClose.CloseIsComplete | pkg/pooling/core.go:550-566 | then when Close returns every shard is empty, the count is zero, every dialled connection is closed, and no shard gains a connection in any continuation |
| PoolShrink.ShrinkSettlesExactly | pkg/pooling/core.go:376-383 | with the ceiling at n and nobody resizing, the idle set stays within n in every continuation if and only if the connections idle or already past release's comparison are within n |
| PoolShrink.ReleasedIsWithinCeiling | pkg/pooling/core.go:376-383 | and then, when nothing is out or in transit, totalConns is at most n |
| PoolTrim.RunTrims | pkg/pooling/core.go:195-205 | while the resizer is between publishing and unlocking, no step of anyone makes it miss more connections than the ceiling allows |
| PoolSettles.ShrinkIsExact | pkg/pooling/core.go:177-205 | every schedule from the moment SetMaxConns(n) publishes its ceiling to its unlock leaves at most n connections idle or cleared to be, if and only if at most n were past release's comparison at that moment |
| PoolSettles.ShrinkConverges | pkg/pooling/core.go:195-205 | then, once the call has returned, the idle set stays within n for ever, and when everything out has come back totalConns is at most n |
| PoolDebt.PermitsSettleExactly | pkg/pooling/permit.go:150-162 | after a resize the free permits stay within n in every continuation if and only if those free or past release's look at the debt already are |
| PoolDebt.DebtIsPaid | pkg/pooling/permit.go:35-40 | and then, when every permit is back, the debt is zero and exactly n are free |
| PoolDebt.DebtIsPaidExactly | pkg/pooling/permit.go:35-40 | after a resize the debt is zero in every continuation that has every permit back, if and only if it is no more than the permits whose release has still to look at it |
| PoolDebt.PayableIsFreeing | pkg/pooling/permit.go:150-162 | which is to say that no more than n permits are free, past that look or kept by a closing drain |
| PoolReturns.AllLook | pkg/pooling/core.go:363-387 | from any state every permit holder can come, by its own steps alone, to its release's look at the debt, no token moving and no debt going unpaid-for |
| PoolOwes.ResizeIsPayableExactly | pkg/pooling/permit.go:62-106 | from the moment the ceiling is published, while nobody else takes a permit, every schedule to the unlock leaves no more debt than releases to pay it, if and only if the tokens to take are free and the debt already stranded is no more than is handed back |
| PoolOwes.DebtIsPaidFromTheStart | pkg/pooling/permit.go:62-106 | and so, of a resize no other overlaps, decides whether the debt is zero in every continuation that has every permit back |
| PoolOwes.CoveredIsHeld | pkg/pooling/permit.go:62-106 | with no debt on record it is that no more permits are out than the new ceiling |
| PoolOwes.RacedResizeIsPayableExactly | pkg/pooling/permit.go:83-91 | with callers enough to take the tokens first, debt is never stranded if and only if the resize does not shrink and hands back what was stranded |
| PoolDebt.DebtOutlives | pkg/pooling/permit.go:150-162 | a run in which a shrink to 0 leaves a permit free and one owed with every permit back |
| PoolSurplus.SurplusSurvives | pkg/pooling/core.go:195-205 | a run in which a shrink to 0 leaves an idle connection open above the ceiling with every permit back |
| PoolRefines.ReleaseAlone | pkg/pooling/permit.go:96-162 | the separate steps of a release, undisturbed, are the whole operation |
| PoolRefines.ResizeAlone | pkg/pooling/permit.go:62-93 | so are those of a resize: whatever the debt, the tokens and the new limit, the loop ends with the closed form's effect |
| PoolAlone.RejectionAlone | pkg/pooling/core.go:426-469 | such a connection is closed once, counted once under the reason that applies and under no other, and taken off the total; then the probe, the trim or the release goes on |
| PoolAlone.HandleReleaseAlone | pkg/pooling/core.go:363-387 | a whole release: back to its own shard, last in, if the pool is open, the driver content and the total within the ceiling, and otherwise closed for the reason that applies; then the permit, as permits.release says |
| PoolAlone.HottestFirst | pkg/pooling/shard.go:33-58 | the connection pushed last is the first a probe of its shard is given, and push and probe undo each other |
| PoolDuties.EvictIdleEmpties | pkg/pooling/core.go:216-231 | at any moment of a run, an undisturbed EvictIdle on an open pool leaves nothing idle, and what was idle is never pooled or handed out again |
| PoolDuties.EvictIdleAlone | pkg/pooling/core.go:216-231 | its whole effect: every idle connection closed in order and counted as evicted, nothing else changed |
| PoolDuties.ReapIsExact | pkg/pooling/core.go:505-516 | a health check takes exactly the stale idle connections out, for good, and leaves every other idle |
| PoolDuties.ReapAlone | pkg/pooling/core.go:505-516 | its whole effect, and that it then warms the pool up |
| PoolDuties.WarmUpAlone | pkg/pooling/core.go:521-545 | the maintainer tops the pool up to MinConns and no further, everything it adds is idle, and it keeps no permit |
| PoolDuties.WarmUpAtCeiling | pkg/pooling/core.go:521-545 | at the ceiling it returns its permit and ends the round |
| PoolDuties.FailedDialAlone | pkg/pooling/core.go:278-310 | a failed dial gives back its slot and its permit and leaves nothing behind; the maintainer's ends its round |
| PoolDuties.TakeEndsExactly | pkg/pooling/core.go:265-289 | a caller with a permit goes on until it is served, and gives up exactly if it finds the pool closed as it is admitted or its context over at the ceiling; then its permit is back and nothing else changed |
| PoolDuties.CloseAlone | pkg/pooling/core.go:550-566 | Close with every permit back: the maintainer retires, every permit is taken, everything idle is closed as shut down, and it returns |
| PoolDuties.CloseGivesUpWaiting | pkg/pooling/core.go:550-566 | past the drain's deadline it closes everything idle and returns all the same |
| PoolDuties.MaintainerGoes | pkg/pooling/core.go:472-500 | a cancelled maintainer retires from anywhere in its rounds, without dialling |
| Permits.Permits.constructor | pkg/pooling/permit.go:44-55 | n tokens in a channel sized for the larger of n and the ceiling |
| Permits.Permits.Resize | pkg/pooling/permit.go:62-93 | the loops clamp, cancel debt before handing out, and reclaim before recording debt, exactly as the closed form |
| Permits.Permits.HandOut | pkg/pooling/permit.go:72-82 | a growth cancels debt first and never overfills the channel |
| Permits.Permits.Reclaim | pkg/pooling/permit.go:83-91 | a shrink takes free tokens first and records the rest as debt |
| Permits.Permits.TryAcquire | pkg/pooling/permit.go:117-124 | takes a token exactly when one is free |
| Permits.Permits.Release | pkg/pooling/permit.go:150-162 | a release pays debt first, else returns its token |
| Permits.Permits.Drain | pkg/pooling/permit.go:166-178 | with no release meanwhile, reclaims as many tokens as are free, up to n, unless the deadline wins the select first |
| Permits.HistoryIsCanonical | pkg/pooling/permit.go:62-106 | after any history tokens = max(0, limit - held) and debt = max(0, held - limit) |
| Permits.PathIndependent | pkg/pooling/permit.go:57-61 | two histories with the same limit and permits out leave the same permit set |
| Permits.LastResizeWins | pkg/pooling/permit.go:62-93 | resize(a); resize(b) is resize(b) |
| Permits.ShrinkConverges | pkg/pooling/permit.go:31-41 | debt is zero exactly when no more are out than the limit, and a permit is free exactly when fewer are |
| Handles.Handle.Release | pkg/pooling/handle.go:44-49 | hands the connection back the first time and changes nothing after |
| Handles.ReleaseAll | pkg/pooling/handle.go:42-49 | however often handles are released, each connection goes back exactly once if ever |
| Shards.Shard.Pop | pkg/pooling/shard.go:33-50 | takes the most recently pushed connection, or reports none |
| Shards.Shard.Push | pkg/pooling/shard.go:53-58 | appends, keeping the mirrored count |
| Shards.Shard.TakeIf | pkg/pooling/shard.go:64-85 | the in-place compaction leaves exactly the unmatched and returns exactly the matched, both in order |
| Shards.Shard.Drain | pkg/pooling/shard.go:88-96 | hands everything over and leaves the shard empty |
| Partition.PartitionIsExact | pkg/pooling/shard.go:64-85 | kept and taken together are the shard, with multiplicity |
| Partition.PartitionSeparates | pkg/pooling/shard.go:64-85 | each half is exactly its side of the predicate |
| Shards.IdleSet.PopIdle | pkg/pooling/core.go:339-358 | from any start the wrap-around probe finds a connection exactly when a usable one is idle, and a miss leaves every shard empty |
| Shards.ProbeOutcome | pkg/pooling/core.go:339-358 | only unusable connections are destroyed, and what is returned is usable and came from the shard it names |
| Shards.MissEmptiesAll | pkg/pooling/core.go:339-358 | after a miss every one of the sixteen shards is empty |
| StatementSet.StatementSet.Remember | examples/gpoolproxy/statements.go:71-90 | the stamped map moves as the recency list does: replace, or append after dropping the head |
| StatementSet.StatementSet.Evict | examples/gpoolproxy/statements.go:99-114 | whatever order the map is walked in, the head of the recency list goes |
| StatementSet.StatementSet.Lookup | examples/gpoolproxy/statements.go:122-130 | finds the entry's message and moves it to the back |
| StatementSet.StatementSet.Forget | examples/gpoolproxy/statements.go:116-118 | deletes the entry and nothing else |
| StatementSet.StampsAreDistinct | examples/gpoolproxy/statements.go:50-59 | use stamps are pairwise distinct and the map has as many entries as the list |
| StatementSet.OldestIsHead | examples/gpoolproxy/statements.go:99-114 | an entry with a minimal stamp is the head of the list |
| StatementSet.LimitHolds | examples/gpoolproxy/statements.go:85-87 | a positive limit is kept in every run, whatever names a client invents |
| Recency.EvictedIsLeastRecentlyUsed | examples/gpoolproxy/statements.go:92-98 | in every run, what is discarded to make room was last remembered or looked up before anything that stays |
| Recency.RunIsRanked | examples/gpoolproxy/statements.go:50-53 | in every run the list is in the order of last use |
| Statements.RememberedAsMap | examples/gpoolproxy/statements.go:71-90 | as a map, remember sets one name and removes at most the evicted one |
| Wire.CutSplits | examples/gpoolproxy/statements.go:168-174 | cutting at the first null loses nothing, and fails exactly when there is none |
| Wire.CutIsExact | examples/gpoolproxy/statements.go:168-174 | a terminated name is cut out whole |
| Wire.NamesAreRead | examples/gpoolproxy/statements.go:136-174 | a Parse, Bind, Describe or Close yields the name its layout carries |
| Wire.CloseRoundTrip | examples/gpoolproxy/statements.go:193-204 | a Close the proxy writes is framed as the relay reads it and names exactly its statement |
| Reconcile.EnsuredMirrors | examples/gpoolproxy/session.go:470-490 | what is injected in front of a Bind is accepted by the server and leaves the backend's set its table's mirror |
| Reconcile.ParsedMirrors | examples/gpoolproxy/session.go:427-451 | so is what is injected in front of a Parse, and the Parse itself is then accepted |
| Reconcile.ReconciledMirrors | examples/gpoolproxy/session.go:423-508 | the same for every message a client can send |
| Reconcile.ReconciledOwes | examples/gpoolproxy/session.go:510-519 | what becomes owed for a message is exactly the completions of what is injected in front of it, in order |
| Proxy.ForwardIsSending | examples/gpoolproxy/session.go:371-421 | what the session object's Forward promises, whatever was written or is owed already, is what the machine's send does: same sets, same debts, the same messages on the wire |
| Reconcile.BindFindsItsParse | examples/gpoolproxy/session.go:470-490 | the server then holds, under the name, the remembered Parse byte for byte |
| Reconcile.NamedExactly | examples/gpoolproxy/statements.go:132-174 | the proxy reads a name in a message exactly if it carries one for the server: in a Parse, a Bind, or a Describe or Close of a statement, and not a portal's, an empty or an unterminated one |
| Reconcile.ExecutedExactly | examples/gpoolproxy/session.go:423-467 | the table the proxy reckons with is the server's: a Parse sets its name and is refused over one that is taken, a Close drops it, nothing else matters |
| Reconcile.ReconciledIsLastUsed | examples/gpoolproxy/session.go:427-490 | a statement parsed, or used and still remembered, is then the last used in both sets |
| Session.Session.EnsurePrepared | examples/gpoolproxy/session.go:470-490 | the method writes and remembers exactly what the plan says, or breaks the backend |
| Session.Session.Hold | examples/gpoolproxy/session.go:502-508 | records a statement and closes what it evicted |
| Session.Session.Inject | examples/gpoolproxy/session.go:512-519 | an injected message is written and its completion owed, in step |
| Session.Session.Reconcile | examples/gpoolproxy/session.go:423-467 | the dispatch over message kinds follows the plan |
| Session.Session.Forward | examples/gpoolproxy/session.go:371-413 | injections first, then the message, then the pending count |
| Session.Session.Swallows | examples/gpoolproxy/session.go:523-532 | consumes the front expectation exactly when the kind matches |
| Session.Session.EnsureBackend | examples/gpoolproxy/session.go:536-552 | an attached backend is kept; otherwise the acquired one is attached |
| Session.Session.CompleteUnit | examples/gpoolproxy/session.go:609-628 | gives the backend back exactly when nothing is pending and the status is idle |
| Session.Session.Detach | examples/gpoolproxy/session.go:631-644 | a backend still attached is marked failed |
| ProxyTheorems.ClientsCannotTell | examples/gpoolproxy/session.go:415-508 | for any number of sessions and backends, the next message a server reads is never refused for a taken name, and a Bind or Describe of a faithful client's live name finds the Parse that client's own server would have |
| ProxyTheorems.ExpectationsAreRecorded | examples/gpoolproxy/session.go:470-490 | every such Bind or Describe goes on the wire carrying that expectation, whichever backend it lands on |
| ProxyTheorems.MirrorIsExact | examples/gpoolproxy/session.go:492-508 | each backend's set is, as a map, the table its server will have once it has read everything written, and within a positive limit, across all sessions that ever hold it |
| ProxyTheorems.BindIsRightExactly | examples/gpoolproxy/session.go:470-490 | what a Bind runs against is what its client means if and only if the session remembers the statement or the backend happens to hold the same bytes |
| Proxy.RunKeepsInv | examples/gpoolproxy/session.go:371-655 | mirrors, expectations, pending counts and attachments all stay consistent over every run |
| Proxy.SendingMirrors | examples/gpoolproxy/session.go:423-508 | one message, with its injections, keeps the backend mirrored and everything on its wire acceptable |
| ProxyTheorems.NoBackendIsShared | examples/gpoolproxy/session.go:536-552 | no backend is ever attached to two sessions |
| ProxyTheorems.HandoverIsClean | examples/gpoolproxy/session.go:609-628 | a backend leaves a client only at an idle ReadyForQuery with every counted message answered, with nothing in flight if its last message ended a unit, and with nothing owed if that was so at every handover |
| ProxyTheorems.BrokenStaysOut | examples/gpoolproxy/session.go:631-655 | a backend abandoned mid-use is never attached again |
| Handover.LeftBehindExactly | examples/gpoolproxy/session.go:609-628 | after any message in any run, some schedule hands the backend over with something in flight if and only if the message ends no unit, a counted message is pending, and one is still to be answered or the last ReadyForQuery to come is idle |
| ProxyTheorems.OpenBatchIsLeftBehind | examples/gpoolproxy/session.go:609-628 | a client with a batch open behind its Sync leaves that batch on a pooled backend |
| Proxy.DeliveringAccounts | examples/gpoolproxy/session.go:568-605 | pending always equals the counted messages unanswered plus the ReadyForQuery unread |
| ReplyOrder.SwallowingIsComplete | examples/gpoolproxy/session.go:523-532 | once every reply is read nothing is owed and the client has, kind by kind, exactly as many replies as its own messages earn |
| ReplyOrder.RepliesStayInOrder | examples/gpoolproxy/session.go:568-605 | if no Parse or Close of the client's is unanswered at each injection, what it is given is at every moment exactly its own reply sequence so far |
| ReplyOrder.InjectionKeepsOrderExactly | examples/gpoolproxy/session.go:512-532 | for one injection with nothing else owed the order is kept if and only if everything due from the client's first unanswered reply of that kind on is of that kind |
| ReplyOrder.OrderIsKeptExactly | examples/gpoolproxy/session.go:512-605 | after any run in which its replies came in order so far, any number of injections included, the client is given the rest in order if and only if each reply it gets while own ones are late is of the first late one's kind, and none stays late |
| ReplyOrder.OrderCanSlip | examples/gpoolproxy/session.go:577-588 | an unanswered Parse and Describe in front of an injected Parse make the client see them swapped |
| Relay.Relay.ReadHeader | examples/gpoolproxy/relay.go:102-112 | accepts a header exactly when it is whole and its length is in range |
| Relay.Relay.ForwardBody | examples/gpoolproxy/relay.go:119-151 | header and body reach the other side byte for byte through a 4 KiB buffer; on failure only a prefix has |
| Relay.Relay.ReadBody | examples/gpoolproxy/relay.go:160-172 | the message read is the header held and the body, and nothing more is consumed |
| Relay.Relay.DiscardBody | examples/gpoolproxy/relay.go:175-184 | drops exactly the body |
| Relay.Relay.Forward | examples/gpoolproxy/relay.go:188-195 | moves exactly the next message of the source |
| Relay.FramingRoundTrip | examples/gpoolproxy/relay.go:99-112 | a stream of framed messages is read back as those messages |
| Relay.ReadingLosesNothing | examples/gpoolproxy/relay.go:99-112 | any stream is the messages read from it followed by what is left |
| PgTheorems.ConfirmedWasReturned | pkg/vendors/postgres/cdc/event_stream.go:87-104 | over any run of crashes and resubscriptions every change at or below the confirmed position had its loop body return |
| PgTheorems.AtLeastOnceExactly | pkg/vendors/postgres/cdc/event_stream.go:276-348 | that holds of a log, over every run, if and only if its changes keep turn: each ends above zero, after every earlier change and no earlier than any other record before it |
| PgTheorems.RestartSkipsNothing | pkg/vendors/postgres/cdc/event_stream.go:338-348 | what the server does not send again after a restart was returned |
| PgTheorems.NothingIsDropped | pkg/vendors/postgres/cdc/event_stream.go:276-294 | while the reader runs every change sent was returned or is in flight |
| PgTheorems.DrainedExactly | pkg/vendors/postgres/cdc/event_stream.go:276-312 | flushed equals lastPushed exactly when no event is in the blocked send, the channel or the consumer's hands |
| PgTheorems.StoresNeverRace | pkg/vendors/postgres/cdc/event_stream.go:301-312 | catchUp stores only with the consumer idle and the channel empty, advance's swap never fails, and the minimum with received never bites |
| PgTheorems.PositionsNeverFall | pkg/vendors/postgres/cdc/event_stream.go:360-367 | flushed never falls within a subscription |
| PgTheorems.AcksRise | pkg/vendors/postgres/cdc/event_stream.go:338-348 | statuses carry rising positions, none above flushed |
| PgTheorems.StatusConfirms | pkg/vendors/postgres/cdc/event_stream.go:276-348 | at rest, with its send blocked or exiting, a status reports exactly flushed and changes nothing else |
| PgTheorems.ConfirmsWhereItIs | pkg/vendors/postgres/cdc/event_stream.go:276-294 | so one status, with neither reader nor consumer moving, brings the slot to where the consumer is, unless the server keeps a higher position |
| PgTheorems.RefusalCloses | pkg/vendors/postgres/cdc/event_stream.go:87-132 | a body that stops the iteration closes the stream: reader out first, with its final status, then the consumer, and nothing more is confirmed than was |
| PgTheorems.ChannelFits | pkg/vendors/postgres/cdc/event_stream.go:276-294 | the channel never holds more than its capacity |
| PgTheorems.DrainedStreamCatchesUp | pkg/vendors/postgres/cdc/event_stream.go:296-312 | a drained stream that hears a higher keepalive confirms exactly that position |
| PgTheorems.BusyStreamHolds | pkg/vendors/postgres/cdc/event_stream.go:301-308 | one with an event in flight confirms what it had |
| PgTheorems.BackwardsEndsAreLost | pkg/vendors/postgres/cdc/event_stream.go:217-265 | two changes whose ends go backwards, and a run that confirms the second unseen |
| PgStream.RunKeepsInv | pkg/vendors/postgres/cdc/event_stream.go:135-312 | the relation between the three positions, the log and the events in flight holds after every run |
| PgReader.EventStream.CatchUp | pkg/vendors/postgres/cdc/event_stream.go:301-312 | the sequential effect the machine's four steps are proved to have when alone |
| PgReader.EventStream.HandleKeepalive | pkg/vendors/postgres/cdc/event_stream.go:200-215 | raises received, then catches up |
| PgReader.EventStream.WriteStatus | pkg/vendors/postgres/cdc/event_stream.go:338-348 | reports received, and flushed capped by it |
| PgReader.EventStream.All | pkg/vendors/postgres/cdc/event_stream.go:87-104 | the position is that of the bodies that asked for more, and of none that did not; a second iteration at once gets nothing, and one that ends closes the stream |
| PgReader.HighestIsLast | pkg/vendors/postgres/cdc/event_stream.go:97-102 | over rising events that position covers no event whose body did not return |
| Lsn.CompareIsNumeric | vendors/mssql/cdc/position.go:44-48 | for numbers of one width, comparing bytes is comparing the numbers |
| Lsn.CompareIsTransitive | vendors/mssql/cdc/position.go:44-48 | the order is transitive on byte strings of any length |
| Lsn.PositionRoundTrip | vendors/mssql/cdc/position.go:19-42 | a position of a ten-byte number parses back to it |
| Lsn.ParsedIsPosition | vendors/mssql/cdc/position.go:28-42 | anything accepted is ten bytes and, up to letter case, the position of what it parses to |
| Lsn.ParsesExactly | vendors/mssql/cdc/position.go:28-42 | accepted is 0x and the twenty digits of a ten-byte number, in either case, and nothing else |
| Lsn.PositionKeepsOrder | vendors/mssql/cdc/position.go:16-21 | recorded positions sort as text the way the numbers sort |
| ChangeOrder.OrderChanges | vendors/mssql/cdc/decoder.go:168-176 | the in-place loops compute the stable sort |
| ChangeOrder.StableSortIsOrdered | vendors/mssql/cdc/decoder.go:163-176 | the result is in (start LSN, seqval) order |
| ChangeOrder.StableSortKeepsOf | vendors/mssql/cdc/decoder.go:163-176 | under every key it holds the same changes in the same order |
| ChangeOrder.StableOrderIsUnique | vendors/mssql/cdc/decoder.go:163-183 | there is only one such arrangement |
| ChangeOrder.LessIsTransitive | vendors/mssql/cdc/decoder.go:178-183 | the comparison is a total preorder on changes |
| Pairing.Pair | vendors/mssql/cdc/decoder.go:92-136 | the index loop computes the pairing function |
| Pairing.EveryRowIsAnImage | vendors/mssql/cdc/decoder.go:92-136 | each row is an image of exactly one event or is dropped |
| Pairing.PairsTell | vendors/mssql/cdc/decoder.go:92-136 | whatever the rows, the events are those that begin in them, in order, each with its row's schema, table, time and position and the images its operation code says: 1 a delete, 2 an insert, 3 and 4 an update, 4 alone an update without its before image |
| Pairing.EventsTell | vendors/mssql/cdc/decoder.go:92-136 | the k-th event of whole changes says what the k-th change did |
| Pairing.PairingSurvivesMerging | vendors/mssql/cdc/decoder.go:92-183 | however rows of whole changes are merged, sorting and pairing gives the changes in stable commit order, one event each, with no before image dropped |
| Polling.ReadInstance | vendors/mssql/cdc/event_stream.go:178-205 | the rows are the capture function's answer for the clamped window, which it never rejects, and none if that window is inside out |
| Polling.WindowIsWholeExactly | vendors/mssql/cdc/event_stream.go:169-191 | a clamped read is the whole window if and only if no change of it was cleaned up unread |
| Polling.EventStream.Poll | vendors/mssql/cdc/event_stream.go:124-167 | the method follows the poll function on every answer and every failure |
| PollingTheorems.PollReadsItsWindow | vendors/mssql/cdc/event_stream.go:143-165 | a poll's batch is exactly its window's changes in commit order, and no transaction is split |
| PollingTheorems.SortedSpansJoin | vendors/mssql/cdc/event_stream.go:152-165 | sorting window by window is sorting once |
| PollingTheorems.PollingIsExact | vendors/mssql/cdc/event_stream.go:124-167 | over any number of polls the delivered stream is the sorted log from the start to the end of the last window, each change exactly once and each event saying what its change did; a stream that stopped delivered a prefix |
| PollingTheorems.PollOutcome | vendors/mssql/cdc/event_stream.go:124-167 | what one poll adds, and that a failing call or a cancelled send ends the stream for good, and nothing else does |
| PollingTheorems.UntroubledPollingCatchesUp | vendors/mssql/cdc/event_stream.go:124-167 | without trouble the stream keeps running and ends past every maximum it was told |
| PollingTheorems.ResumeIsExact | vendors/mssql/cdc/subscriber.go:105-127 | restarting from a change's position delivers from the first change of its transaction on |
| Binlog.EventStream.ReadAll | vendors/mysql/cdc/event_stream.go:115-152 | the reader loop is the automaton |
| Binlog.EventStream.Observe | vendors/mysql/cdc/event_stream.go:216-235 | a rotation sets the file; any other event may set the next GTID and the offset |
| Binlog.EventStream.Commit | vendors/mysql/cdc/event_stream.go:237-247 | folds the finished GTID into the set, or names the file position |
| Binlog.EventStream.HandleRows | vendors/mysql/cdc/event_stream.go:156-186 | delivers an event's changes under the resume position, unless filtered or unnamed |
| Binlog.EventStream.Decode | vendors/mysql/cdc/decoder.go:24-64 | rows become changes one by one, an update's in pairs |
| Binlog.DecodedExactly | vendors/mysql/cdc/decoder.go:23-64 | an update's rows are before and after images by turns, half as many changes; an insert's or a delete's are one image each; operation and position as given |
| Binlog.IsCommitExactly | vendors/mysql/cdc/event_stream.go:144-150 | a statement commits exactly if it is COMMIT in any case with nothing but space around it |
| BinlogTheorems.LastWordOnFile | vendors/mysql/cdc/event_stream.go:216-235 | the place in the file is what the last event to name one says: a rotation both, any other only the place, and only if not zero |
| BinlogTheorems.GtidCountsOnce | vendors/mysql/cdc/event_stream.go:237-247 | an announced GTID enters the set at the next commit and only then |
| BinlogTheorems.UnnamedStops | vendors/mysql/cdc/event_stream.go:156-186 | a row event whose columns cannot be named ends the stream rather than being passed over |
| BinlogTheorems.StreamFollows | vendors/mysql/cdc/event_stream.go:115-152 | whatever the source interleaves, each unit's changes carry the position before the unit |
| BinlogResume.OnePositionEach | vendors/mysql/cdc/event_stream.go:119-124 | all changes of a transaction share one position and a later transaction's never do |
| BinlogResume.ResumeIsExact | vendors/mysql/cdc/subscriber.go:90-106 | in both notations, restarting from a transaction's position delivers exactly the suffix from its first change, under the same positions |
| BinlogResume.RestartIsServed | vendors/mysql/cdc/event_stream.go:197-247 | the source then sends that transaction and everything after it, with at most statements in front |
| BinlogResume.StoppedReaderIsBehind | vendors/mysql/cdc/event_stream.go:126-152 | a reader stopped anywhere has delivered a prefix |
| BinlogPosition.FileRoundTripExactly | vendors/mysql/cdc/position.go:38-75 | a file position survives its text if and only if the file has a name with no colon in it and the offset fits 32 bits, and is refused otherwise |
| BinlogPosition.NotationsAreDisjoint | vendors/mysql/cdc/position.go:14-24 | neither notation is ever read as the other |

## Hypotheses

- PostgreSQL: changes keep turn as `PgTheorems.AtLeastOnceExactly` says they must, a keepalive
  ends before the record sent next, the server resumes at the first record ending after its
  confirmed position, and a standby status of zero confirms
  nothing. A lower status may or may not move the slot back: both are covered. A row change
  whose relation was never announced carries no event, as the reader treats it.
- SQL Server: what a poll sees up to the maximum number is what the tables did, nothing
  unread was cleaned up, and incrementing a number gives its successor. An update's two rows
  are adjacent with one key.
- MySQL: the file of a unit is named before the unit, a commit event's log position is where
  its unit ends, and in GTID notation every unit is identified and by nothing an earlier one
  accounts for (which covers both flavours' sets).
- Proxy: the server does what `Server` says: one ReadyForQuery, the last reply, to each Query,
  Sync and FunctionCall, a Parse of a free name accepted, and each Close.

## Left out

- Sockets, TLS, flush timing, clocks and timeouts: deadlines and driver answers are choices.
- Which discard reason is chosen for a connection that fails on release: only that one is.
- `expired` and the cached clock: part of the choice a probe, the reaper or release makes.
- Shards.IdleSet.PopIdle: popIdle's lock-free glance at a shard's count is part of the locked pop, in the object and in the protocol.
- Shards.Shard.TakeIf: does not model that vacated slots are cleared for the collector.
- Handles.Handle.Release: a copy of a handle is not modelled; it would carry its own release flag, which the source tells callers not to make.
- A closed form for how far trimIdle gets: it may also destroy unusable connections it passes.
- StatementSet.StatementSet.Stamp: use stamps are unbounded here and 64 bits wide in the source.
- 32-bit counters in the pool, 64-bit WAL positions and 32-bit binlog offsets do not wrap here.
- PoolSettles.ShrinkIsExact: assumes no warm-up reservation spans the resize; one that does may add one connection more.
- Permits.ShrinkConverges: is about whole permit operations; step by step, PoolDebt and PoolOwes say when the debt is paid.
- Permits.Permits.Drain: waiting for a release is a step of the protocol, not of the object.
- ProxyTheorems.ClientsCannotTell: promises nothing of a Bind whose client has more live names than the limit or has parsed a live name again; ProxyTheorems.BindIsRightExactly says what such a Bind meets.
- A failed write in the proxy's machine: it ends the session and fails the backend, which is what Leave does.
- Server error recovery in the proxy, DISCARD and DEALLOCATE through Query, portals, cancellation, authentication.
- PgReader.EventStream.AdvanceFlushed: the compare-and-swap loop has one lap here; PgTheorems.StoresNeverRace proves it never needs a second.
- The blocking send of the PostgreSQL reader as a loop: in the machine it is a state in which statuses may be sent.
- Where PostgreSQL itself restarts interleaved transactions: the model's server goes by record ends alone.
- PollingTheorems.PollingIsExact: the set of tracked tables is fixed for a run; one added later counts as having no earlier changes.
- `checkRetained`, table filters and publication DDL: shallow, or wrappers over a server.
- Lsn.ParsePosition: letter case is ASCII; no other character lowers to a hexadecimal digit.
- BinlogPosition.ParsePosition: the text of a GTID set is opaque; sets are compared by what they account for.
- Binlog.IsCommit: white space beyond Latin-1 is not trimmed.
- Factories, engines, statistics, the sql driver adapter, vendor configuration, benchmarks.
