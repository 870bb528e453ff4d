/** The little of the PostgreSQL wire format the proxy understands: framing, the names
    in Parse, Bind, Describe and Close, and the Close it writes itself. */
module Wire {
  import opened Bytes
  import opened Options
  import opened Statements

  const HEADER_SIZE: nat := 5
  const MAX_MESSAGE_LEN: nat := 0x1000_0000

  const MSG_PARSE: byte := 80         // 'P'
  const MSG_BIND: byte := 66          // 'B'
  const MSG_DESCRIBE: byte := 68      // 'D'
  const MSG_CLOSE: byte := 67         // 'C'
  const MSG_QUERY: byte := 81         // 'Q'
  const MSG_SYNC: byte := 83          // 'S'
  const MSG_FLUSH: byte := 72         // 'H'
  const MSG_FUNCTION_CALL: byte := 70 // 'F'
  const PARSE_COMPLETE: byte := 49    // '1'
  const CLOSE_COMPLETE: byte := 51    // '3'
  const DESCRIBE_STATEMENT: byte := 83 // 'S'
  const TX_IDLE: byte := 73           // 'I'

  predicate EndsTransactionUnit(kind: byte) {
    kind == MSG_QUERY || kind == MSG_SYNC || kind == MSG_FUNCTION_CALL
  }

  predicate NamesStatement(kind: byte) {
    kind == MSG_PARSE || kind == MSG_BIND || kind == MSG_DESCRIBE || kind == MSG_CLOSE
  }

  /** Splits a null-terminated string from the front. */
  function CutBytes(body: seq<byte>): Option<(Name, seq<byte>)> {
    if body == [] then None
    else if body[0] == 0 then Some(([], body[1..]))
    else
      match CutBytes(body[1..])
      case None => None
      case Some((value, rest)) => Some(([body[0]] + value, rest))
  }

  function CString(body: seq<byte>): Option<Name> {
    match CutBytes(body)
    case None => None
    case Some((value, _)) => Some(value)
  }

  function BindName(body: seq<byte>): Option<Name> {
    match CutBytes(body)
    case None => None
    case Some((_, rest)) => CString(rest)
  }

  function TargetName(body: seq<byte>): Option<Name> {
    if body == [] || body[0] != DESCRIBE_STATEMENT then None else CString(body[1..])
  }

  function StatementNameOf(kind: byte, body: seq<byte>): Option<Name> {
    if kind == MSG_BIND then BindName(body)
    else if kind == MSG_DESCRIBE || kind == MSG_CLOSE then TargetName(body)
    else None
  }

  function BigEndian(n: nat): seq<byte> {
    [(n / 0x100_0000 % 256) as byte, (n / 0x1_0000 % 256) as byte, (n / 256 % 256) as byte, (n % 256) as byte]
  }

  function Length(message: seq<byte>): nat
    requires |message| >= HEADER_SIZE
  {
    message[1] as nat * 0x100_0000 + message[2] as nat * 0x1_0000 + message[3] as nat * 256 + message[4] as nat
  }

  /** A whole message whose length field is what readHeader accepts and agrees with. */
  predicate Framed(message: Message) {
    |message| >= HEADER_SIZE && Length(message) == |message| - 1 && 4 <= Length(message) <= MAX_MESSAGE_LEN
  }

  function Kind(message: Message): byte
    requires |message| >= HEADER_SIZE
  {
    message[0]
  }

  function Body(message: Message): seq<byte>
    requires |message| >= HEADER_SIZE
  {
    message[HEADER_SIZE..]
  }

  /** The length field is 32 bits wide. */
  function CloseStatement(name: Name): (m: Message)
    ensures |m| >= HEADER_SIZE
  {
    var body := [DESCRIBE_STATEMENT] + name + [0];
    [MSG_CLOSE] + BigEndian(|body| + 4) + body
  }

  /** A name can be sent if it has no null in it, which every name read off the wire has not. */
  predicate Sendable(name: Name) {
    forall i :: 0 <= i < |name| ==> name[i] != 0
  }

  lemma {:induction false} CutIsExact(name: Name, rest: seq<byte>)
    requires Sendable(name)
    ensures CutBytes(name + [0] + rest) == Some((name, rest))
  {
    var body := name + [0] + rest;
    if name == [] {
      assert body[1..] == rest;
    } else {
      CutIsExact(name[1..], rest);
      assert body[1..] == name[1..] + [0] + rest;
      assert [name[0]] + name[1..] == name;
    }
  }

  /** What is cut off, its terminator and what remains are the whole buffer: the split
      loses nothing, and it fails exactly when there is no terminator. */
  lemma {:induction false} CutSplits(body: seq<byte>)
    ensures CutBytes(body).None? <==> forall i :: 0 <= i < |body| ==> body[i] != 0
    ensures CutBytes(body).Some? ==>
      var (value, rest) := CutBytes(body).value; Sendable(value) && body == value + [0] + rest
  {
    if body != [] && body[0] != 0 {
      CutSplits(body[1..]);
      if CutBytes(body[1..]).Some? {
        var (value, rest) := CutBytes(body[1..]).value;
        assert body == [body[0]] + body[1..];
        assert body[1..][|value|] == 0;
      } else {
        forall i | 0 <= i < |body| ensures body[i] != 0 {
          if i > 0 {
            assert body[1..][i - 1] != 0;
          }
        }
      }
    } else if body != [] {
      assert body == [] + [0] + body[1..];
    }
  }

  /** Each message is read at the place its layout puts the statement's name: after the
      portal in a Bind, after the target byte in a Describe or Close, first in a Parse. */
  lemma NamesAreRead(portal: Name, name: Name, rest: seq<byte>)
    requires Sendable(portal) && Sendable(name)
    ensures StatementNameOf(MSG_BIND, portal + [0] + (name + [0] + rest)) == Some(name)
    ensures StatementNameOf(MSG_DESCRIBE, [DESCRIBE_STATEMENT] + (name + [0] + rest)) == Some(name)
    ensures StatementNameOf(MSG_CLOSE, [DESCRIBE_STATEMENT] + (name + [0] + rest)) == Some(name)
    ensures CString(name + [0] + rest) == Some(name)
  {
    CutIsExact(portal, name + [0] + rest);
    CutIsExact(name, rest);
    assert ([DESCRIBE_STATEMENT] + (name + [0] + rest))[1..] == name + [0] + rest;
  }

  lemma BigEndianIsExact(n: nat)
    requires n < 0x1_0000_0000
    ensures var b := BigEndian(n);
      b[0] as nat * 0x100_0000 + b[1] as nat * 0x1_0000 + b[2] as nat * 256 + b[3] as nat == n
  {
    assert n / 0x1_0000 == n / 256 / 256;
    assert n / 0x100_0000 == n / 0x1_0000 / 256;
  }

  /** A Close the proxy writes is framed as the relay would read it and names exactly the
      statement it was built for. */
  lemma CloseRoundTrip(name: Name)
    requires Sendable(name) && |name| + 6 <= MAX_MESSAGE_LEN
    ensures var m := CloseStatement(name);
      Framed(m) && Kind(m) == MSG_CLOSE && StatementNameOf(MSG_CLOSE, Body(m)) == Some(name)
  {
    var m := CloseStatement(name);
    CloseLayout(name);
    BigEndianIsExact(|name| + 6);
    assert Body(m)[1..] == name + [0] + [];
    CutIsExact(name, []);
  }

  lemma CloseLayout(name: Name)
    ensures var m := CloseStatement(name);
      |m| == |name| + 7 && m[0] == MSG_CLOSE && m[1..5] == BigEndian(|name| + 6)
      && m[5] == DESCRIBE_STATEMENT && m[6..] == name + [0]
  {
  }
}
