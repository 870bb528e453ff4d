/** The MySQL stream: an automaton over binary log events that delivers row changes, each
    with the position its transaction can be replayed from. */
module Binlog {
  import opened Options
  import opened Sequences
  import opened Text

  /** A transaction's identity, in either flavour. */
  datatype Gtid = Source(uuid: string, number: nat) | Domain(domain: nat, server: nat, sequence: nat)

  /** Executing g accounts for h: the very transaction, or in the MariaDB flavour any
      earlier one of its domain. */
  predicate Supersedes(g: Gtid, h: Gtid) {
    g == h || (g.Domain? && h.Domain? && g.domain == h.domain && h.sequence <= g.sequence)
  }

  ghost predicate Covers(executed: set<Gtid>, h: Gtid) { exists g :: g in executed && Supersedes(g, h) }

  datatype FilePos = FilePos(name: string, offset: nat)

  datatype Pos = AtGtid(executed: set<Gtid>) | AtFile(file: FilePos)

  datatype Op = Insert | Update | Delete

  type Row = map<string, string>

  datatype Body =
    | Rotate(to: FilePos)
    | GtidNext(gtid: Option<Gtid>)    // none when it cannot be read
    | Rows(op: Option<Op>, allowed: bool, named: bool, rows: seq<Row>)
    | Xid
    | Query(text: string)
    | Other

  datatype Event = Event(logPos: nat, body: Body)

  datatype Change = Change(op: Op, before: Option<Row>, after: Option<Row>, at: Pos)

  // ---- pure parts -------------------------------------------------------------------

  predicate IsSpace(c: char) { '\t' <= c <= '\r' || c == ' ' || c as int == 0x85 || c as int == 0xA0 }

  function TrimLeft(s: string): string { if s != [] && IsSpace(s[0]) then TrimLeft(s[1..]) else s }

  function TrimRight(s: string): string { if s != [] && IsSpace(s[|s| - 1]) then TrimRight(s[..|s| - 1]) else s }

  predicate IsCommit(text: string) { Raised(TrimRight(TrimLeft(text))) == "COMMIT" }

  /** An update's rows come in before and after pairs. */
  function InPairs(rows: seq<Row>, at: Pos): seq<Change>
    decreases |rows|
  {
    if |rows| < 2 then [] else [Change(Update, Some(rows[0]), Some(rows[1]), at)] + InPairs(rows[2..], at)
  }

  function One(op: Op, row: Row, at: Pos): Change {
    if op.Delete? then Change(op, Some(row), None, at) else Change(op, None, Some(row), at)
  }

  function OneByOne(op: Op, rows: seq<Row>, at: Pos): seq<Change> {
    if rows == [] then [] else [One(op, rows[0], at)] + OneByOne(op, rows[1..], at)
  }

  /** One event's rows as changes. */
  function Decoded(op: Op, rows: seq<Row>, at: Pos): seq<Change> {
    if op.Update? then InPairs(rows, at) else OneByOne(op, rows, at)
  }

  lemma {:induction false} InPairsExactly(rows: seq<Row>, at: Pos)
    ensures var changes := InPairs(rows, at);
      |changes| == |rows| / 2
      && forall k :: 0 <= k < |changes| ==> changes[k] == Change(Update, Some(rows[2 * k]), Some(rows[2 * k + 1]), at)
    decreases |rows|
  {
    if |rows| >= 2 {
      var rest := rows[2..];
      InPairsExactly(rest, at);
      forall k | 1 <= k < |rows| / 2
        ensures InPairs(rows, at)[k] == Change(Update, Some(rows[2 * k]), Some(rows[2 * k + 1]), at)
      {
        assert InPairs(rows, at)[k] == InPairs(rest, at)[k - 1];
        assert rest[2 * (k - 1)] == rows[2 * k] && rest[2 * (k - 1) + 1] == rows[2 * k + 1];
      }
    }
  }

  lemma {:induction false} OneByOneExactly(op: Op, rows: seq<Row>, at: Pos)
    ensures var changes := OneByOne(op, rows, at);
      |changes| == |rows| && forall k :: 0 <= k < |rows| ==> changes[k] == One(op, rows[k], at)
  {
    if rows != [] {
      OneByOneExactly(op, rows[1..], at);
    }
  }

  lemma PairsGoOn(rows: seq<Row>, i: nat, changes: seq<Change>, at: Pos)
    requires i + 1 < |rows| && changes + InPairs(rows[i..], at) == InPairs(rows, at)
    ensures (changes + [Change(Update, Some(rows[i]), Some(rows[i + 1]), at)]) + InPairs(rows[i + 2..], at)
      == InPairs(rows, at)
  {
    assert rows[i..][2..] == rows[i + 2..];
    Joined(changes, [Change(Update, Some(rows[i]), Some(rows[i + 1]), at)], InPairs(rows[i + 2..], at));
  }

  lemma OnesGoOn(op: Op, rows: seq<Row>, i: nat, changes: seq<Change>, at: Pos)
    requires i < |rows| && changes + OneByOne(op, rows[i..], at) == OneByOne(op, rows, at)
    ensures (changes + [One(op, rows[i], at)]) + OneByOne(op, rows[i + 1..], at) == OneByOne(op, rows, at)
  {
    assert rows[i..][1..] == rows[i + 1..];
    Joined(changes, [One(op, rows[i], at)], OneByOne(op, rows[i + 1..], at));
  }

  /** An update's rows are before and after images by turns; any other event's are one image
      each, what was deleted or what is there now. */
  lemma DecodedExactly(op: Op, rows: seq<Row>, at: Pos)
    ensures var changes := Decoded(op, rows, at);
      && |changes| == (if op == Update then |rows| / 2 else |rows|)
      && forall k :: 0 <= k < |changes| ==>
           && changes[k].op == op && changes[k].at == at
           && changes[k].before ==
              (match op case Update => Some(rows[2 * k]) case Delete => Some(rows[k]) case Insert => None)
           && changes[k].after ==
              (match op case Update => Some(rows[2 * k + 1]) case Insert => Some(rows[k]) case Delete => None)
  {
    if op == Update {
      InPairsExactly(rows, at);
    } else {
      OneByOneExactly(op, rows, at);
    }
  }

  predicate Blank(c: char) { c as int in {9, 10, 11, 12, 13, 32, 0x85, 0xA0} }

  predicate AllBlank(s: string) { forall k :: 0 <= k < |s| ==> Blank(s[k]) }

  /** COMMIT, in any case. */
  predicate SpellsCommit(w: string) {
    |w| == 6 && forall k :: 0 <= k < 6 ==> w[k] == "COMMIT"[k] || w[k] == "commit"[k]
  }

  /** s is a run of space and then t. */
  predicate SpaceThen(s: string, t: string) {
    |t| <= |s| && s[|s| - |t|..] == t && AllBlank(s[..|s| - |t|])
  }

  lemma SpaceInFront(s: string, t: string)
    requires s != [] && Blank(s[0]) && SpaceThen(s[1..], t)
    ensures SpaceThen(s, t)
  {
    var n := |s| - |t|;
    assert s[n..] == s[1..][n - 1..];
    forall k | 0 <= k < n ensures Blank(s[..n][k]) {
      assert k > 0 ==> s[1..][..n - 1][k - 1] == s[k];
    }
  }

  lemma {:induction false} TrimsLeft(s: string)
    ensures SpaceThen(s, TrimLeft(s)) && (TrimLeft(s) != [] ==> !Blank(TrimLeft(s)[0]))
  {
    if s != [] && IsSpace(s[0]) {
      TrimsLeft(s[1..]);
      SpaceInFront(s, TrimLeft(s[1..]));
    }
  }

  lemma BlankAppend(s: string, c: char)
    requires AllBlank(s) && Blank(c)
    ensures AllBlank(s + [c])
  {
  }

  lemma {:induction false} TrimsRight(s: string)
    ensures var t := TrimRight(s);
      |t| <= |s| && s == t + s[|t|..] && AllBlank(s[|t|..]) && (t != [] ==> !Blank(t[|t| - 1]))
  {
    if s != [] && IsSpace(s[|s| - 1]) {
      var front := s[..|s| - 1];
      var t := TrimRight(front);
      TrimsRight(front);
      BlankAppend(front[|t|..], s[|s| - 1]);
      assert s[|t|..] == front[|t|..] + [s[|s| - 1]];
    }
  }

  lemma WordInSpace(a: string, w: string, b: string, k: nat)
    requires AllBlank(a) && AllBlank(b) && k < |a + w + b| && !Blank((a + w + b)[k])
    ensures |a| <= k < |a| + |w|
  {
  }

  /** There is only one way to take the space off around a word. */
  lemma OneTrim(a: string, w: string, b: string, a': string, w': string, b': string)
    requires a + w + b == a' + w' + b' && AllBlank(a) && AllBlank(b) && AllBlank(a') && AllBlank(b')
    requires w' != [] && !Blank(w'[0]) && !Blank(w'[|w'| - 1])
    requires w != [] ==> !Blank(w[0]) && !Blank(w[|w| - 1])
    ensures w == w'
  {
    var s := a' + w' + b';
    assert s[|a'|] == w'[0] && s[|a'| + |w'| - 1] == w'[|w'| - 1];
    WordInSpace(a, w, b, |a'|);
    WordInSpace(a, w, b, |a'| + |w'| - 1);
    assert (a + w + b)[|a|] == w[0] && (a + w + b)[|a| + |w| - 1] == w[|w| - 1];
    WordInSpace(a', w', b', |a|);
    WordInSpace(a', w', b', |a| + |w| - 1);
    assert w == (a + w + b)[|a|..|a| + |w|] && w' == s[|a'|..|a'| + |w'|];
  }

  lemma RaisedSpells(w: string)
    ensures Raised(w) == "COMMIT" <==> SpellsCommit(w)
    ensures SpellsCommit(w) ==> !Blank(w[0]) && !Blank(w[5])
  {
    if Raised(w) == "COMMIT" {
      forall k | 0 <= k < 6 ensures w[k] == "COMMIT"[k] || w[k] == "commit"[k] {
        assert ToUpper(w[k]) == Raised(w)[k] == "COMMIT"[k];
      }
    }
  }

  lemma Outer(left: string, word: string)
    requires word <= left && (left != [] ==> !Blank(left[0]))
    ensures word != [] ==> !Blank(word[0])
  {
  }

  lemma SpaceSplits(s: string, t: string) returns (a: string)
    requires SpaceThen(s, t)
    ensures s == a + t && AllBlank(a)
  {
    a := s[..|s| - |t|];
  }

  lemma Trims(text: string) returns (a: string, b: string)
    ensures var w := TrimRight(TrimLeft(text));
      && text == a + w + b && AllBlank(a) && AllBlank(b)
      && (w != [] ==> !Blank(w[0]) && !Blank(w[|w| - 1]))
  {
    var left := TrimLeft(text);
    var word := TrimRight(left);
    TrimsLeft(text);
    TrimsRight(left);
    Outer(left, word);
    a := SpaceSplits(text, left);
    b := left[|word|..];
    Regrouped(text, a, left, word, b);
  }

  lemma Regrouped(text: string, a: string, left: string, word: string, b: string)
    requires text == a + left && left == word + b
    ensures text == a + word + b
  {
  }

  /** A statement commits exactly if it is that word with nothing but space around it. */
  lemma IsCommitExactly(text: string)
    ensures IsCommit(text) <==>
      exists a: string, w: string, b: string :: text == a + w + b && AllBlank(a) && SpellsCommit(w) && AllBlank(b)
  {
    var word := TrimRight(TrimLeft(text));
    var before, after := Trims(text);
    RaisedSpells(word);
    if a: string, w: string, b: string :| text == a + w + b && AllBlank(a) && SpellsCommit(w) && AllBlank(b) {
      RaisedSpells(w);
      OneTrim(before, word, after, a, w, b);
    }
  }

  // ---- the automaton ----------------------------------------------------------------

  datatype Tracker = Tracker(gtid: Option<set<Gtid>>, next: Option<Gtid>, file: FilePos)

  datatype Reader = Reader(tracker: Tracker, resume: Pos, delivered: seq<Change>, running: bool)

  const NO_FILE: FilePos := FilePos("", 0)

  function NewTracker(start: Pos): Tracker {
    match start
    case AtGtid(executed) => Tracker(Some(executed), None, NO_FILE)
    case AtFile(file) => Tracker(None, None, file)
  }

  function Started(start: Pos): Reader { Reader(NewTracker(start), start, [], true) }

  function Observed(t: Tracker, e: Event): Tracker {
    if e.body.Rotate? then t.(file := e.body.to)
    else
      var u := if e.body.GtidNext? && e.body.gtid.Some? then t.(next := e.body.gtid) else t;
      if e.logPos > 0 then u.(file := u.file.(offset := e.logPos)) else u
  }

  function Committed(t: Tracker): (Tracker, Pos) {
    if t.gtid.Some? && t.next.Some? then
      var executed := t.gtid.value + {t.next.value};
      (t.(gtid := Some(executed), next := None), AtGtid(executed))
    else (t, AtFile(t.file))
  }

  function Handled(x: Reader, e: Event): Reader
    requires e.body.Rows?
  {
    if e.body.op.None? || !e.body.allowed then x
    else if !e.body.named then x.(running := false)
    else x.(delivered := x.delivered + Decoded(e.body.op.value, e.body.rows, x.resume))
  }

  function Step(x: Reader, e: Event): Reader {
    if !x.running then x
    else
      var y := x.(tracker := Observed(x.tracker, e));
      if e.body.Rows? then Handled(y, e)
      else if e.body.Xid? || (e.body.Query? && IsCommit(e.body.text)) then
        var (t, resume) := Committed(y.tracker);
        y.(tracker := t, resume := resume)
      else y
  }

  function Run(x: Reader, events: seq<Event>): Reader
    decreases |events|
  {
    if events == [] then x else Run(Step(x, events[0]), events[1..])
  }

  lemma {:induction false} RunConcat(x: Reader, a: seq<Event>, b: seq<Event>)
    ensures Run(x, a + b) == Run(Run(x, a), b)
    decreases |a|
  {
    if a == [] {
      assert a + b == b;
    } else {
      assert (a + b)[0] == a[0] && (a + b)[1..] == a[1..] + b;
      RunConcat(Step(x, a[0]), a[1..], b);
    }
  }

  class EventStream {
    var gtid: Option<set<Gtid>>
    var next: Option<Gtid>
    var file: FilePos
    var resume: Pos
    var delivered: seq<Change>
    var running: bool

    ghost function View(): Reader
      reads this
    {
      Reader(Tracker(gtid, next, file), resume, delivered, running)
    }

    constructor (start: Pos)
      ensures View() == Started(start)
      ensures file == if start.AtFile? then start.file else FilePos("", 0)
    {
      gtid := if start.AtGtid? then Some(start.executed) else None;
      file := if start.AtFile? then start.file else NO_FILE;
      next, resume, delivered, running := None, start, [], true;
    }

    method Observe(e: Event)
      modifies this`next, this`file
      ensures View() == old(View()).(tracker := Observed(old(View()).tracker, e))
    {
      match e.body {
        case Rotate(to) =>
          file := to;
          return;
        case GtidNext(g) =>
          if g.Some? {
            next := g;
          }
        case _ =>
      }
      if e.logPos > 0 {
        file := file.(offset := e.logPos);
      }
    }

    method Commit() returns (at: Pos)
      modifies this`gtid, this`next
      ensures (View().tracker, at) == Committed(old(View()).tracker)
    {
      if gtid.Some? && next.Some? {
        gtid := Some(gtid.value + {next.value});
        next := None;
        return AtGtid(gtid.value);
      }
      return AtFile(file);
    }

    method Decode(op: Op, rows: seq<Row>, at: Pos) returns (changes: seq<Change>)
      ensures changes == Decoded(op, rows, at)
    {
      changes := [];
      var i := 0;
      assert rows[0..] == rows;
      if op.Update? {
        while i + 1 < |rows|
          invariant 0 <= i <= |rows| && changes + InPairs(rows[i..], at) == InPairs(rows, at)
        {
          PairsGoOn(rows, i, changes, at);
          changes := changes + [Change(op, Some(rows[i]), Some(rows[i + 1]), at)];
          i := i + 2;
        }
        assert changes + [] == changes;
      } else {
        while i < |rows|
          invariant 0 <= i <= |rows| && changes + OneByOne(op, rows[i..], at) == OneByOne(op, rows, at)
        {
          OnesGoOn(op, rows, i, changes, at);
          changes := changes +
            [if op.Delete? then Change(op, Some(rows[i]), None, at) else Change(op, None, Some(rows[i]), at)];
          i := i + 1;
        }
        assert changes + [] == changes;
      }
    }

    method HandleRows(e: Event)
      requires e.body.Rows?
      modifies this`delivered, this`running
      ensures View() == Handled(old(View()), e)
    {
      if e.body.op.None? || !e.body.allowed {
        return;
      }
      if !e.body.named {
        running := false;
        return;
      }
      var changes := Decode(e.body.op.value, e.body.rows, resume);
      delivered := delivered + changes;
    }

    /** The reader loop over what the source sends until it stops. */
    method ReadAll(events: seq<Event>)
      modifies this
      ensures View() == Run(old(View()), events)
    {
      var i := 0;
      assert events[0..] == events;
      while i < |events|
        invariant 0 <= i <= |events| && Run(View(), events[i..]) == Run(old(View()), events)
      {
        var e := events[i];
        assert events[i..][1..] == events[i + 1..];
        ghost var before := View();
        if running {
          Observe(e);
          match e.body {
            case Rows(_, _, _, _) => HandleRows(e);
            case Xid => resume := Commit();
            case Query(text) =>
              if IsCommit(text) {
                resume := Commit();
              }
            case _ =>
          }
        }
        assert View() == Step(before, e);
        i := i + 1;
      }
    }
  }
}
