/** A binary log position as text: tagged with its notation, so that neither can be taken
    for the other. */
module BinlogPosition {
  import opened Options
  import opened Binlog

  const GTID_SCHEME: string := "gtid:"
  const FILE_SCHEME: string := "file:"
  const OFFSET_LIMIT: nat := 0x1_0000_0000

  datatype Parsed = GtidText(text: string) | FileText(file: FilePos) | Invalid

  function Decimal(n: nat): string {
    (if n < 10 then [] else Decimal(n / 10)) + ['0' + (n % 10) as char]
  }

  predicate Digits(s: string) { forall i :: 0 <= i < |s| ==> '0' <= s[i] <= '9' }

  function Number(s: string): nat
    requires Digits(s)
  {
    if s == [] then 0 else Number(s[..|s| - 1]) * 10 + (s[|s| - 1] - '0') as nat
  }

  /** strconv.ParseUint(s, 10, 32). */
  function ParseOffset(s: string): Option<nat> {
    if s == [] || !Digits(s) || Number(s) >= OFFSET_LIMIT then None else Some(Number(s))
  }

  function EncodeFile(file: FilePos): string { FILE_SCHEME + (file.name + (":" + Decimal(file.offset))) }

  /** strings.Cut at the first colon. */
  function CutColon(s: string): Option<(string, string)> {
    if s == [] then None
    else if s[0] == ':' then Some(([], s[1..]))
    else
      match CutColon(s[1..])
      case None => None
      case Some((name, rest)) => Some(([s[0]] + name, rest))
  }

  function ParsePosition(text: string): Parsed {
    if GTID_SCHEME <= text then GtidText(text[|GTID_SCHEME|..])
    else if FILE_SCHEME <= text then
      match CutColon(text[|FILE_SCHEME|..])
      case Some((name, digits)) =>
        if name == [] || ParseOffset(digits).None? then Invalid else FileText(FilePos(name, ParseOffset(digits).value))
      case None => Invalid
    else Invalid
  }

  lemma NumberAppend(s: string, c: char)
    requires Digits(s) && '0' <= c <= '9'
    ensures Digits(s + [c]) && Number(s + [c]) == Number(s) * 10 + (c - '0') as nat
  {
    assert (s + [c])[..|s|] == s;
  }

  lemma {:induction false} DecimalRoundTrip(n: nat)
    ensures Decimal(n) != [] && Digits(Decimal(n)) && Number(Decimal(n)) == n
  {
    var front, last := if n < 10 then [] else Decimal(n / 10), '0' + (n % 10) as char;
    if n >= 10 {
      DecimalRoundTrip(n / 10);
    }
    NumberAppend(front, last);
  }

  lemma {:induction false} CutAtColon(name: string, rest: string)
    ensures ':' !in name ==> CutColon(name + (":" + rest)) == Some((name, rest))
    ensures ':' in name ==> CutColon(name + (":" + rest)).Some? && ':' in CutColon(name + (":" + rest)).value.1
  {
    var s := name + (":" + rest);
    if name == [] {
      assert s == ":" + rest && s[1..] == rest;
    } else {
      assert s[0] == name[0] && s[1..] == name[1..] + (":" + rest);
      CutAtColon(name[1..], rest);
      assert name == [name[0]] + name[1..];
      if name[0] == ':' {
        assert (":" + rest)[0] == ':';
        assert s[|name|] == ':' && s[1..][|name| - 1] == ':';
      }
    }
  }

  lemma FileIsParsed(file: FilePos)
    ensures ParsePosition(EncodeFile(file)) ==
      match CutColon(file.name + (":" + Decimal(file.offset)))
      case Some((name, digits)) =>
        if name == [] || ParseOffset(digits).None? then Invalid else FileText(FilePos(name, ParseOffset(digits).value))
      case None => Invalid
  {
    var text := EncodeFile(file);
    assert text[0] == 'f' && GTID_SCHEME[0] == 'g';
    assert FILE_SCHEME <= text && text[|FILE_SCHEME|..] == file.name + (":" + Decimal(file.offset));
  }

  lemma ColonIsNoNumber(digits: string)
    requires ':' in digits
    ensures ParseOffset(digits).None?
  {
    var k :| 0 <= k < |digits| && digits[k] == ':';
    assert !('0' <= digits[k] <= '9');
  }

  /** A file position survives being written and read back exactly when its file has a
      name, the name has no colon, and the offset fits 32 bits; otherwise it is refused. */
  lemma FileRoundTripExactly(file: FilePos)
    ensures EncodeFile(file) == "file:" + (file.name + (":" + Decimal(file.offset)))
    ensures ParsePosition(EncodeFile(file)) ==
      if file.name != "" && ':' !in file.name && file.offset < 0x1_0000_0000 then FileText(file) else Invalid
  {
    FileIsParsed(file);
    DecimalRoundTrip(file.offset);
    CutAtColon(file.name, Decimal(file.offset));
    if ':' in file.name {
      ColonIsNoNumber(CutColon(file.name + (":" + Decimal(file.offset))).value.1);
    }
  }

  /** A GTID set is never read as a file position, nor a file position as a GTID set. */
  lemma NotationsAreDisjoint(gtids: string, file: FilePos)
    ensures ParsePosition("gtid:" + gtids) == GtidText(gtids)
    ensures !ParsePosition(EncodeFile(file)).GtidText?
  {
    assert (GTID_SCHEME + gtids)[|GTID_SCHEME|..] == gtids;
    assert EncodeFile(file)[0] == 'f' && GTID_SCHEME[0] == 'g';
  }
}
