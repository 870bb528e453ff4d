/** Where a change's position leads: back to the start of its transaction and nowhere
    else, in both notations. */
module BinlogTheorems {
  import opened Options
  import opened Binlog
  import opened Sequences

  /** One unit of a log: a transaction, with the event that commits it, or a statement
      such as DDL that changes no rows and commits nothing. at says which file it is in and
      end where in the file it ends. */
  datatype Unit = Unit(at: nat, end: nat, gtid: Option<Gtid>, gtidPos: nat, inner: seq<Event>, commit: Option<Event>)

  /** The files of the log, oldest first, and what is in them. */
  datatype Log = Log(files: seq<string>, units: seq<Unit>)

  predicate Commits(e: Event) { e.body.Xid? || (e.body.Query? && IsCommit(e.body.text)) }

  /** What may stand inside a unit besides its GTID event and its commit. */
  predicate Inner(e: Event) {
    !Commits(e) && !e.body.Rotate? && !e.body.GtidNext? && (e.body.Rows? ==> e.body.named)
  }

  /** What the source may send between units. */
  predicate Between(e: Event) { e.body.Rotate? || e.body.Other? }

  ghost predicate UnitOk(log: Log, u: Unit) {
    && u.at < |log.files|
    && (forall e :: e in u.inner ==> Inner(e))
    && (u.commit.Some? ==> Commits(u.commit.value) && u.commit.value.logPos == u.end > 0)
    && (u.commit.None? ==> forall e :: e in u.inner ==> !e.body.Rows?)
  }

  /** File names are distinct and units end in log order. */
  ghost predicate WellFormed(log: Log) {
    && (forall i, j :: 0 <= i < j < |log.files| ==> log.files[i] != log.files[j])
    && (forall i :: 0 <= i < |log.units| ==> UnitOk(log, log.units[i]))
    && (forall i, j :: 0 <= i < j < |log.units| ==> Earlier(log.units[i], log.units[j]))
  }

  predicate Earlier(u: Unit, v: Unit) { u.at < v.at || (u.at == v.at && u.end < v.end) }

  /** Every unit is identified, and none by what an earlier one accounts for. */
  ghost predicate Identified(units: seq<Unit>) {
    && (forall i :: 0 <= i < |units| ==> units[i].gtid.Some?)
    && (forall i, j :: 0 <= i < j < |units| ==> !Supersedes(units[i].gtid.value, units[j].gtid.value))
  }

  // ---- what the source serves -------------------------------------------------------

  function IndexOf(files: seq<string>, name: string): nat {
    if files == [] || files[0] == name then 0 else 1 + IndexOf(files[1..], name)
  }

  /** The source sends a unit for a GTID set that does not cover it, and for a place in a
      file that it ends after. */
  ghost predicate Due(files: seq<string>, p: Pos, u: Unit) {
    match p
    case AtGtid(executed) => u.gtid.Some? && !Covers(executed, u.gtid.value)
    case AtFile(file) =>
      var k := IndexOf(files, file.name); k < u.at || (k == u.at && file.offset < u.end)
  }

  ghost function Served(files: seq<string>, p: Pos, units: seq<Unit>): seq<Unit> {
    if units == [] then []
    else (if Due(files, p, units[0]) then [units[0]] else []) + Served(files, p, units[1..])
  }

  function GtidEvents(u: Unit): seq<Event> {
    if u.gtid.Some? then [Event(u.gtidPos, GtidNext(u.gtid))] else []
  }

  function Events(u: Unit): seq<Event> {
    GtidEvents(u) + u.inner + (if u.commit.Some? then [u.commit.value] else [])
  }

  /** What is sent for a list of units, with lead[i] in front of the i-th. */
  function Stream(units: seq<Unit>, leads: seq<seq<Event>>): seq<Event>
    requires |leads| == |units|
  {
    if units == [] then [] else leads[0] + Events(units[0]) + Stream(units[1..], leads[1..])
  }

  function NameAfter(name: string, lead: seq<Event>): string
    decreases |lead|
  {
    if lead == [] then name else NameAfter(if lead[0].body.Rotate? then lead[0].body.to.name else name, lead[1..])
  }

  /** The file a stream from p knows of before it is told. */
  function KnownFile(p: Pos): string { if p.AtFile? then p.file.name else "" }

  /** The file is always named before a unit in it is sent. */
  ghost predicate LeadsOk(files: seq<string>, name: string, units: seq<Unit>, leads: seq<seq<Event>>)
    requires |leads| == |units|
    decreases |units|
  {
    units == [] ||
    (units[0].at < |files| && (forall e :: e in leads[0] ==> Between(e))
     && NameAfter(name, leads[0]) == files[units[0].at]
     && LeadsOk(files, files[units[0].at], units[1..], leads[1..]))
  }

  // ---- what a reader should make of it ----------------------------------------------

  function ChangesOf(e: Event, at: Pos): seq<Change> {
    if e.body.Rows? && e.body.op.Some? && e.body.allowed then Decoded(e.body.op.value, e.body.rows, at) else []
  }

  function RowChanges(events: seq<Event>, at: Pos): seq<Change> {
    if events == [] then [] else ChangesOf(events[0], at) + RowChanges(events[1..], at)
  }

  /** The position after a unit: only a commit moves it. */
  function After(files: seq<string>, p: Pos, u: Unit): Pos
    requires u.at < |files|
  {
    if u.commit.None? then p
    else if p.AtGtid? && u.gtid.Some? then AtGtid(p.executed + {u.gtid.value})
    else AtFile(FilePos(files[u.at], u.end))
  }

  ghost predicate Placed(files: seq<string>, units: seq<Unit>) {
    forall u :: u in units ==> u.at < |files|
  }

  /** The changes of a list of units, each unit's under the position before it. */
  ghost function Tagged(files: seq<string>, p: Pos, units: seq<Unit>): seq<Change>
    requires Placed(files, units)
    decreases |units|
  {
    if units == [] then []
    else RowChanges(units[0].inner, p) + Tagged(files, After(files, p, units[0]), units[1..])
  }

  ghost function PosAt(files: seq<string>, p: Pos, units: seq<Unit>, i: nat): Pos
    requires Placed(files, units) && i <= |units|
    decreases |units|
  {
    if i == 0 then p else PosAt(files, After(files, p, units[0]), units[1..], i - 1)
  }

  // ---- the reader follows -----------------------------------------------------------

  /** Between units the tracker names what the reader resumes from. */
  ghost predicate Following(x: Reader, p: Pos) {
    x.running && x.resume == p && x.tracker.gtid == (if p.AtGtid? then Some(p.executed) else None)
  }

  lemma {:induction false} LeadFollows(x: Reader, p: Pos, lead: seq<Event>)
    requires Following(x, p) && forall e :: e in lead ==> Between(e)
    ensures var y := Run(x, lead);
      Following(y, p) && y.delivered == x.delivered && y.tracker.file.name == NameAfter(x.tracker.file.name, lead)
    decreases |lead|
  {
    if lead != [] {
      assert Between(lead[0]);
      LeadFollows(Step(x, lead[0]), p, lead[1..]);
    }
  }

  lemma InnerStep(x: Reader, p: Pos, e: Event)
    requires Following(x, p) && Inner(e)
    ensures var y := Step(x, e);
      && Following(y, p) && y.delivered == x.delivered + ChangesOf(e, p)
      && y.tracker.file.name == x.tracker.file.name && y.tracker.next == x.tracker.next
  {
    assert x.delivered + [] == x.delivered;
  }

  lemma {:induction false} InnerFollows(x: Reader, p: Pos, inner: seq<Event>)
    requires Following(x, p) && forall e :: e in inner ==> Inner(e)
    ensures var y := Run(x, inner);
      && Following(y, p) && y.delivered == x.delivered + RowChanges(inner, p)
      && y.tracker.file.name == x.tracker.file.name && y.tracker.next == x.tracker.next
    decreases |inner|
  {
    if inner == [] {
      assert x.delivered + [] == x.delivered;
    } else {
      InnerStep(x, p, inner[0]);
      InnerFollows(Step(x, inner[0]), p, inner[1..]);
      Joined(x.delivered, ChangesOf(inner[0], p), RowChanges(inner[1..], p));
    }
  }

  lemma UnitFollows(log: Log, x: Reader, p: Pos, u: Unit)
    requires UnitOk(log, u) && Following(x, p) && x.tracker.file.name == log.files[u.at]
    requires p.AtGtid? ==> u.gtid.Some?
    ensures var y := Run(x, Events(u));
      && Following(y, After(log.files, p, u)) && y.delivered == x.delivered + RowChanges(u.inner, p)
      && y.tracker.file.name == log.files[u.at]
  {
    var x1 := Run(x, GtidEvents(u));
    RunConcat(x, GtidEvents(u) + u.inner, if u.commit.Some? then [u.commit.value] else []);
    RunConcat(x, GtidEvents(u), u.inner);
    assert x1 == (if u.gtid.Some? then Step(x, Event(u.gtidPos, GtidNext(u.gtid))) else x) by {
      if u.gtid.Some? {
        assert GtidEvents(u)[1..] == [];
      }
    }
    InnerFollows(x1, p, u.inner);
    if u.commit.Some? {
      assert [u.commit.value][1..] == [];
    }
  }

  lemma {:induction false} NextUnitFollows(log: Log, x: Reader, p: Pos, u: Unit, lead: seq<Event>)
    requires UnitOk(log, u) && Following(x, p) && (forall e :: e in lead ==> Between(e))
    requires NameAfter(x.tracker.file.name, lead) == log.files[u.at]
    requires p.AtGtid? ==> u.gtid.Some?
    ensures var y := Run(x, lead + Events(u));
      && Following(y, After(log.files, p, u)) && y.delivered == x.delivered + RowChanges(u.inner, p)
      && y.tracker.file.name == log.files[u.at]
  {
    RunConcat(x, lead, Events(u));
    LeadFollows(x, p, lead);
    UnitFollows(log, Run(x, lead), p, u);
  }

  ghost predicate Readable(log: Log, p: Pos, units: seq<Unit>) {
    forall u :: u in units ==> UnitOk(log, u) && (p.AtGtid? ==> u.gtid.Some?)
  }

  lemma ReadableTail(log: Log, p: Pos, units: seq<Unit>)
    requires Readable(log, p, units) && Placed(log.files, units) && units != []
    ensures Readable(log, After(log.files, p, units[0]), units[1..]) && Placed(log.files, units[1..])
    ensures UnitOk(log, units[0]) && (p.AtGtid? ==> units[0].gtid.Some?)
  {
  }

  // ---- where the tracker is ----------------------------------------------------------

  /** An event that says nothing of the file. */
  predicate Silent(e: Event) { !e.body.Rotate? && e.logPos == 0 }

  lemma {:induction false} SilenceKeepsFile(x: Reader, events: seq<Event>)
    requires forall e :: e in events ==> Silent(e)
    ensures Run(x, events).tracker.file == x.tracker.file
    decreases |events|
  {
    if events != [] {
      assert Silent(events[0]);
      SilenceKeepsFile(Step(x, events[0]), events[1..]);
    }
  }

  /** The place in the file is what the last event to name one says: a rotation names file
      and place, any other event only a place, and only if it is not zero. */
  lemma {:induction false} LastWordOnFile(x: Reader, events: seq<Event>, i: nat)
    requires i < |events| && !Silent(events[i]) && forall e :: e in events[i + 1..] ==> Silent(e)
    requires Run(x, events[..i]).running
    ensures var before, after := Run(x, events[..i]).tracker.file, Run(x, events).tracker.file;
      if events[i].body.Rotate? then after == events[i].body.to
      else after.name == before.name && after.offset == events[i].logPos
  {
    var e, rest := events[i], events[i + 1..];
    var x1 := Run(x, events[..i]);
    assert events == events[..i] + ([e] + rest);
    RunConcat(x, events[..i], [e] + rest);
    assert ([e] + rest)[1..] == rest;
    SilenceKeepsFile(Step(x1, e), rest);
  }

  /** A transaction's GTID enters the set at its commit and only there: a second commit with
      none announced in between leaves the set alone and names the file. */
  lemma {:induction false} GtidCountsOnce(x: Reader, e: Event, quiet: seq<Event>, again: Event)
    requires x.running && Commits(e) && Commits(again) && x.tracker.gtid.Some?
    requires forall q :: q in quiet ==> Inner(q)
    ensures var y, z := Step(x, e), Run(Step(x, e), quiet + [again]);
      && y.tracker.gtid == Some(x.tracker.gtid.value + if x.tracker.next.Some? then {x.tracker.next.value} else {})
      && z.tracker.gtid == y.tracker.gtid && z.resume == AtFile(z.tracker.file)
  {
    var y := Step(x, e);
    var none: set<Gtid> := {};
    assert x.tracker.gtid.value + none == x.tracker.gtid.value;
    RunConcat(y, quiet, [again]);
    QuietKeepsGtids(y, quiet);
    assert [again][1..] == [];
  }

  lemma {:induction false} QuietKeepsGtids(x: Reader, quiet: seq<Event>)
    requires x.running && forall q :: q in quiet ==> Inner(q)
    ensures var y := Run(x, quiet);
      y.running && y.tracker.gtid == x.tracker.gtid && y.tracker.next == x.tracker.next
    decreases |quiet|
  {
    if quiet != [] {
      assert Inner(quiet[0]);
      QuietKeepsGtids(Step(x, quiet[0]), quiet[1..]);
    }
  }

  /** A row event whose columns cannot be named ends the stream there and then, rather than
      being passed over. */
  lemma {:induction false} UnnamedStops(x: Reader, e: Event, after: seq<Event>)
    requires x.running && e.body.Rows? && e.body.op.Some? && e.body.allowed && !e.body.named
    ensures var y := Run(x, [e] + after); !y.running && y.delivered == x.delivered && y.resume == x.resume
  {
    assert ([e] + after)[1..] == after;
    StoppedIsOver(Step(x, e), after);
  }

  lemma {:induction false} StoppedIsOver(x: Reader, events: seq<Event>)
    requires !x.running
    ensures Run(x, events) == x
    decreases |events|
  {
    if events != [] {
      StoppedIsOver(x, events[1..]);
    }
  }

  /** Whatever the source sends between units, the reader delivers each unit's changes
      under the position before the unit. */
  lemma {:induction false} StreamFollows(log: Log, x: Reader, p: Pos, units: seq<Unit>, leads: seq<seq<Event>>)
    requires Readable(log, p, units) && Placed(log.files, units) && Following(x, p) && |leads| == |units|
    requires LeadsOk(log.files, x.tracker.file.name, units, leads)
    ensures Run(x, Stream(units, leads)).delivered == x.delivered + Tagged(log.files, p, units)
    decreases |units|
  {
    if units == [] {
      assert x.delivered + [] == x.delivered;
    } else {
      var u, rest := units[0], Stream(units[1..], leads[1..]);
      ReadableTail(log, p, units);
      RunConcat(x, leads[0] + Events(u), rest);
      NextUnitFollows(log, x, p, u, leads[0]);
      StreamFollows(log, Run(x, leads[0] + Events(u)), After(log.files, p, u), units[1..], leads[1..]);
      Joined(x.delivered, RowChanges(u.inner, p), Tagged(log.files, After(log.files, p, u), units[1..]));
    }
  }

  /** A reader stopped at any point has delivered a prefix. */
  lemma {:induction false} DeliveredGrows(x: Reader, events: seq<Event>)
    ensures x.delivered <= Run(x, events).delivered
    decreases |events|
  {
    if events != [] {
      DeliveredGrows(Step(x, events[0]), events[1..]);
    }
  }
}
