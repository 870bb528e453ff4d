/** Restarting from any delivered change's position replays from the first change of its
    transaction, exactly. */
module BinlogResume {
  import opened Options
  import opened Binlog
  import opened BinlogTheorems
  import opened Sequences

  // ---- positions and what is still due ----------------------------------------------

  /** u comes before v in a way position p can tell. */
  ghost predicate Before(p: Pos, u: Unit, v: Unit) {
    if p.AtGtid? then u.gtid.Some? && v.gtid.Some? && !Supersedes(u.gtid.value, v.gtid.value) else Earlier(u, v)
  }

  ghost predicate Chained(p: Pos, units: seq<Unit>) {
    forall i, j :: 0 <= i < j < |units| ==> Before(p, units[i], units[j])
  }

  /** A log a reader at p can follow: well formed, and identified if p is a GTID set. */
  ghost predicate Followable(log: Log, p: Pos) {
    WellFormed(log) && (p.AtGtid? ==> Identified(log.units))
  }

  lemma {:induction false} IndexIs(files: seq<string>, k: nat)
    requires k < |files| && forall i, j :: 0 <= i < j < |files| ==> files[i] != files[j]
    ensures IndexOf(files, files[k]) == k
  {
    if k > 0 {
      IndexIs(files[1..], k - 1);
    }
  }

  lemma {:induction false} ServedMember(files: seq<string>, p: Pos, units: seq<Unit>, u: Unit)
    ensures u in Served(files, p, units) <==> u in units && Due(files, p, u)
  {
    if units != [] {
      ServedMember(files, p, units[1..], u);
    }
  }

  lemma {:induction false} ServedIsChained(files: seq<string>, p: Pos, units: seq<Unit>)
    requires Chained(p, units)
    ensures Chained(p, Served(files, p, units))
  {
    if units != [] {
      var u, rest := units[0], Served(files, p, units[1..]);
      ServedIsChained(files, p, units[1..]);
      forall j | 0 <= j < |rest| ensures Before(p, u, rest[j]) {
        ServedMember(files, p, units[1..], rest[j]);
        var k :| 0 <= k < |units[1..]| && units[1..][k] == rest[j];
        assert Before(p, units[0], units[k + 1]);
      }
    }
  }

  /** Passing v moves the position past v, if v commits, and past nothing later. */
  lemma AfterMoves(log: Log, p: Pos, v: Unit, u: Unit)
    requires Followable(log, p) && v in log.units && Due(log.files, p, v) && v.at < |log.files|
    ensures Due(log.files, After(log.files, p, v), u) ==> Due(log.files, p, u)
    ensures v.commit.Some? ==> !Due(log.files, After(log.files, p, v), v)
    ensures Before(p, v, u) && Due(log.files, p, u) ==> Due(log.files, After(log.files, p, v), u)
    ensures After(log.files, p, v).AtGtid? == p.AtGtid?
  {
    IndexIs(log.files, v.at);
    if p.AtGtid? && v.commit.Some? {
      var g := v.gtid.value;
      assert g in p.executed + {g} && Supersedes(g, g);
      if u.gtid.Some? {
        CoversOneMore(p.executed, g, u.gtid.value);
      }
    }
  }

  lemma CoversOneMore(executed: set<Gtid>, g: Gtid, h: Gtid)
    ensures Covers(executed + {g}, h) <==> Covers(executed, h) || Supersedes(g, h)
  {
    if Covers(executed, h) {
      var e :| e in executed && Supersedes(e, h);
      assert e in executed + {g};
    }
    if Supersedes(g, h) {
      assert g in executed + {g};
    }
  }

  /** Everything at or after unit i is due at the position before unit i; no transaction
      before it is; and nothing is due there that was not due at the start. */
  lemma {:induction false} DueAt(log: Log, p: Pos, units: seq<Unit>, i: nat)
    requires Followable(log, p) && Placed(log.files, units) && i <= |units| && Chained(p, units)
    requires forall u :: u in units ==> u in log.units && Due(log.files, p, u)
    ensures var q := PosAt(log.files, p, units, i);
      && q.AtGtid? == p.AtGtid?
      && (forall k :: i <= k < |units| ==> Due(log.files, q, units[k]))
      && (forall k :: 0 <= k < i && units[k].commit.Some? ==> !Due(log.files, q, units[k]))
      && (forall u :: Due(log.files, q, u) ==> Due(log.files, p, u))
    decreases i
  {
    if i > 0 {
      var v, rest := units[0], units[1..];
      var next := After(log.files, p, v);
      AfterMoves(log, p, v, v);
      forall u | u in rest ensures u in log.units && Due(log.files, next, u) {
        AfterMoves(log, p, v, u);
        var k :| 0 <= k < |rest| && rest[k] == u;
        assert Before(p, units[0], units[k + 1]) && units[k + 1] in units;
      }
      assert Chained(next, rest) by {
        forall a, b | 0 <= a < b < |rest| ensures Before(next, rest[a], rest[b]) {
          assert Before(p, units[a + 1], units[b + 1]);
        }
      }
      DueAt(log, next, rest, i - 1);
      var q := PosAt(log.files, next, rest, i - 1);
      forall u | Due(log.files, q, u) ensures Due(log.files, p, u) {
        AfterMoves(log, p, v, u);
      }
      forall k | 0 <= k < i && units[k].commit.Some? ensures !Due(log.files, q, units[k]) {
        if k > 0 {
          assert units[k] == rest[k - 1];
        }
      }
      forall k | i <= k < |units| ensures Due(log.files, q, units[k]) {
        assert units[k] == rest[k - 1];
      }
    }
  }

  // ---- what a restart is served -----------------------------------------------------

  lemma {:induction false} ServedTwice(files: seq<string>, p: Pos, q: Pos, units: seq<Unit>)
    requires forall u :: Due(files, q, u) ==> Due(files, p, u)
    ensures Served(files, q, Served(files, p, units)) == Served(files, q, units)
  {
    if units != [] {
      var u, rest := units[0], Served(files, p, units[1..]);
      ServedTwice(files, p, q, units[1..]);
      if Due(files, p, u) {
        assert ([u] + rest)[0] == u && ([u] + rest)[1..] == rest;
      } else {
        assert [] + rest == rest;
      }
    }
  }

  lemma {:induction false} ServedConcat(files: seq<string>, q: Pos, a: seq<Unit>, b: seq<Unit>)
    ensures Served(files, q, a + b) == Served(files, q, a) + Served(files, q, b)
  {
    if a == [] {
      assert a + b == b;
    } else {
      var all, first := a + b, if Due(files, q, a[0]) then [a[0]] else [];
      assert all[0] == a[0] && all[1..] == a[1..] + b;
      ServedConcat(files, q, a[1..], b);
      assert Served(files, q, all) == first + Served(files, q, all[1..]);
      Joined(first, Served(files, q, a[1..]), Served(files, q, b));
    }
  }

  lemma {:induction false} AllServed(files: seq<string>, q: Pos, units: seq<Unit>)
    requires forall u :: u in units ==> Due(files, q, u)
    ensures Served(files, q, units) == units
  {
    if units != [] {
      AllServed(files, q, units[1..]);
    }
  }

  lemma {:induction false} NoRowsNoChanges(inner: seq<Event>, at: Pos)
    requires forall e :: e in inner ==> !e.body.Rows?
    ensures RowChanges(inner, at) == []
  {
    if inner != [] {
      NoRowsNoChanges(inner[1..], at);
    }
  }

  /** Statements replayed in front change nothing. */
  lemma {:induction false} StatementsTagNothing(log: Log, q: Pos, statements: seq<Unit>, units: seq<Unit>)
    requires Placed(log.files, statements + units) && Placed(log.files, units)
    requires forall u :: u in statements ==> UnitOk(log, u) && u.commit.None?
    ensures Tagged(log.files, q, statements + units) == Tagged(log.files, q, units)
    decreases |statements|
  {
    if statements == [] {
      assert statements + units == units;
    } else {
      var all := statements + units;
      assert all[0] == statements[0] && all[1..] == statements[1..] + units;
      assert UnitOk(log, statements[0]);
      NoRowsNoChanges(statements[0].inner, q);
      StatementsTagNothing(log, q, statements[1..], units);
    }
  }

  lemma {:induction false} TaggedSplits(files: seq<string>, p: Pos, units: seq<Unit>, i: nat)
    requires Placed(files, units) && i <= |units|
    ensures Placed(files, units[..i]) && Placed(files, units[i..])
    ensures Tagged(files, p, units) ==
      Tagged(files, p, units[..i]) + Tagged(files, PosAt(files, p, units, i), units[i..])
    decreases i
  {
    if i == 0 {
      assert units[..0] == [] && units[0..] == units;
    } else {
      var next, here, rest := After(files, p, units[0]), RowChanges(units[0].inner, p), units[1..];
      TaggedSplits(files, next, rest, i - 1);
      assert units[..i][1..] == rest[..i - 1] && rest[i - 1..] == units[i..];
      assert Tagged(files, p, units) == here + Tagged(files, next, rest);
      assert Tagged(files, p, units[..i]) == here + Tagged(files, next, rest[..i - 1]);
      Joined(here, Tagged(files, next, rest[..i - 1]), Tagged(files, PosAt(files, next, rest, i - 1), units[i..]));
    }
  }

  /** What a fresh reader at p is served, and that it can follow it. */
  lemma ServedIsReadable(log: Log, p: Pos)
    requires Followable(log, p)
    ensures var units := Served(log.files, p, log.units);
      && Readable(log, p, units) && Placed(log.files, units) && Chained(p, units)
      && (forall u :: u in units ==> u in log.units && Due(log.files, p, u))
  {
    var units := Served(log.files, p, log.units);
    assert Chained(p, log.units);
    ServedIsChained(log.files, p, log.units);
    forall u | u in units
      ensures u in log.units && Due(log.files, p, u) && UnitOk(log, u) && (p.AtGtid? ==> u.gtid.Some?)
    {
      ServedMember(log.files, p, log.units, u);
      var k :| 0 <= k < |log.units| && log.units[k] == u;
      assert UnitOk(log, log.units[k]);
    }
  }

  lemma {:induction false} FrontIsStatements(log: Log, p: Pos, q: Pos, front: seq<Unit>)
    requires forall u :: u in front ==> UnitOk(log, u)
    requires forall k :: 0 <= k < |front| && front[k].commit.Some? ==> !Due(log.files, q, front[k])
    ensures forall u :: u in Served(log.files, q, front) ==> UnitOk(log, u) && u.commit.None?
  {
    forall u | u in Served(log.files, q, front) ensures UnitOk(log, u) && u.commit.None? {
      ServedMember(log.files, q, front, u);
      var k :| 0 <= k < |front| && front[k] == u;
    }
  }

  lemma SuffixIsServed(log: Log, q: Pos, units: seq<Unit>, i: nat)
    requires i <= |units| && forall k :: i <= k < |units| ==> Due(log.files, q, units[k])
    ensures Served(log.files, q, units[i..]) == units[i..]
  {
    forall u | u in units[i..] ensures Due(log.files, q, u) {
      var k :| 0 <= k < |units[i..]| && units[i..][k] == u;
      assert units[i + k] == u;
    }
    AllServed(log.files, q, units[i..]);
  }

  /** A restart before unit i is served that unit and everything after it, with at most
      statements in front. */
  lemma RestartIsServed(log: Log, p: Pos, i: nat) returns (statements: seq<Unit>)
    requires Followable(log, p) && i <= |Served(log.files, p, log.units)|
    requires Placed(log.files, Served(log.files, p, log.units))
    ensures var units := Served(log.files, p, log.units); var q := PosAt(log.files, p, units, i);
      && q.AtGtid? == p.AtGtid?
      && Served(log.files, q, log.units) == statements + units[i..]
      && forall u :: u in statements ==> UnitOk(log, u) && u.commit.None?
  {
    var units := Served(log.files, p, log.units);
    var front, rest := units[..i], units[i..];
    ServedIsReadable(log, p);
    DueAt(log, p, units, i);
    var q := PosAt(log.files, p, units, i);
    ServedTwice(log.files, p, q, log.units);
    assert units == front + rest;
    ServedConcat(log.files, q, front, rest);
    SuffixIsServed(log, q, units, i);
    statements := Served(log.files, q, front);
    FrontIsStatements(log, p, q, front);
  }

  // ---- the theorems -----------------------------------------------------------------

  /** What a stream from p delivers over everything it is served. */
  lemma {:induction false} StreamDelivers(log: Log, p: Pos, leads: seq<seq<Event>>)
    requires Followable(log, p) && |leads| == |Served(log.files, p, log.units)|
    requires LeadsOk(log.files, KnownFile(p), Served(log.files, p, log.units), leads)
    ensures var units := Served(log.files, p, log.units);
      Placed(log.files, units) && Run(Started(p), Stream(units, leads)).delivered == Tagged(log.files, p, units)
  {
    var units := Served(log.files, p, log.units);
    ServedIsReadable(log, p);
    StreamFollows(log, Started(p), p, units, leads);
    assert [] + Tagged(log.files, p, units) == Tagged(log.files, p, units);
  }

  /** Restarting from the position of unit i's changes delivers exactly what the first
      stream delivered from unit i's first change on, each change under the same position
      as before. */
  lemma {:induction false} ResumeIsExact(log: Log, p: Pos, leads: seq<seq<Event>>, i: nat, again: seq<seq<Event>>)
    requires Followable(log, p) && |leads| == |Served(log.files, p, log.units)| && i <= |leads|
    requires LeadsOk(log.files, KnownFile(p), Served(log.files, p, log.units), leads)
    requires Placed(log.files, Served(log.files, p, log.units))
    requires var q := PosAt(log.files, p, Served(log.files, p, log.units), i);
      |again| == |Served(log.files, q, log.units)|
      && LeadsOk(log.files, KnownFile(q), Served(log.files, q, log.units), again)
    ensures var units := Served(log.files, p, log.units); var q := PosAt(log.files, p, units, i);
      && Placed(log.files, units[..i])
      && Run(Started(p), Stream(units, leads)).delivered ==
         Tagged(log.files, p, units[..i]) + Run(Started(q), Stream(Served(log.files, q, log.units), again)).delivered
  {
    var units := Served(log.files, p, log.units);
    var q := PosAt(log.files, p, units, i);
    var statements := RestartIsServed(log, p, i);
    StreamDelivers(log, p, leads);
    StreamDelivers(log, q, again);
    TaggedSplits(log.files, p, units, i);
    StatementsTagNothing(log, q, statements, units[i..]);
  }

  lemma {:induction false} DecodedAt(op: Op, rows: seq<Row>, at: Pos)
    ensures forall c :: c in Decoded(op, rows, at) ==> c.at == at
    decreases |rows|
  {
    if op.Update? && |rows| >= 2 {
      DecodedAt(op, rows[2..], at);
    } else if !op.Update? && rows != [] {
      DecodedAt(op, rows[1..], at);
    }
  }

  lemma {:induction false} ChangesAt(inner: seq<Event>, at: Pos)
    ensures forall c :: c in RowChanges(inner, at) ==> c.at == at
  {
    if inner != [] {
      ChangesAt(inner[1..], at);
      if inner[0].body.Rows? && inner[0].body.op.Some? {
        DecodedAt(inner[0].body.op.value, inner[0].body.rows, at);
      }
    }
  }

  /** All changes of one transaction share one position, and a later one's never do. */
  lemma {:induction false} OnePositionEach(log: Log, p: Pos, i: nat, j: nat)
    requires Followable(log, p) && i < j < |Served(log.files, p, log.units)|
    requires Placed(log.files, Served(log.files, p, log.units))
    requires Served(log.files, p, log.units)[i].commit.Some?
    ensures var units := Served(log.files, p, log.units);
      var a, b := PosAt(log.files, p, units, i), PosAt(log.files, p, units, j);
      && a != b
      && (forall c :: c in RowChanges(units[i].inner, a) ==> c.at == a)
      && (forall c :: c in RowChanges(units[j].inner, b) ==> c.at == b)
  {
    var units := Served(log.files, p, log.units);
    ServedIsReadable(log, p);
    DueAt(log, p, units, i);
    DueAt(log, p, units, j);
    ChangesAt(units[i].inner, PosAt(log.files, p, units, i));
    ChangesAt(units[j].inner, PosAt(log.files, p, units, j));
  }

  /** A reader stopped in the middle, even inside a transaction, has delivered a prefix of
      that, so the last position recorded still loses nothing. */
  lemma StoppedReaderIsBehind(log: Log, p: Pos, leads: seq<seq<Event>>, n: nat)
    requires Followable(log, p) && |leads| == |Served(log.files, p, log.units)|
    requires LeadsOk(log.files, KnownFile(p), Served(log.files, p, log.units), leads)
    requires n <= |Stream(Served(log.files, p, log.units), leads)|
    ensures var units := Served(log.files, p, log.units);
      Placed(log.files, units) && Run(Started(p), Stream(units, leads)[..n]).delivered <= Tagged(log.files, p, units)
  {
    var units := Served(log.files, p, log.units);
    var events := Stream(units, leads);
    StreamDelivers(log, p, leads);
    assert events == events[..n] + events[n..];
    RunConcat(Started(p), events[..n], events[n..]);
    DeliveredGrows(Run(Started(p), events[..n]), events[n..]);
  }
}
