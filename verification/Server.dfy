/** PostgreSQL's side of a connection, read off the bytes of its frontend/backend protocol
    3.0 and nothing the proxy makes of them. */
module Server {
  import opened Bytes
  import opened Statements

  /** The body of a message begins behind its kind and its four length bytes. */
  const BODY: nat := 5

  /** Query 'Q', Sync 'S' and FunctionCall 'F' are each answered, last of all, with one
      ReadyForQuery; no other message is. */
  predicate AnsweredByReady(kind: byte) { kind == 81 || kind == 83 || kind == 70 }

  /** The kind of a ReadyForQuery, 'Z'. */
  const READY: byte := 90

  /** It reports 'I': no transaction is open. */
  predicate NoTransaction(status: byte) { status == 73 }

  /** ParseComplete '1' for a Parse 'P', CloseComplete '3' for a Close 'C'. */
  function Completion(m: Message): byte
    requires |m| >= BODY
  {
    if m[0] == 80 then 49 else 51
  }

  /** There is a string at place i, up to the first null. */
  predicate StringAt(m: Message, i: nat, text: Name) {
    i + |text| < |m| && m[i..i + |text|] == text && m[i + |text|] == 0 && 0 !in text
  }

  /** A Parse of a named statement: its name comes first. */
  predicate Prepares(m: Message, name: Name) {
    |m| >= BODY && m[0] == 80 && name != [] && StringAt(m, BODY, name)
  }

  /** A Close of a named statement, as 'S' says, not of a portal. */
  predicate Deallocates(m: Message, name: Name) {
    |m| > BODY && m[0] == 67 && m[BODY] == 83 && name != [] && StringAt(m, BODY + 1, name)
  }

  /** A Describe of a named statement, or a Bind of one, behind the portal's name. */
  ghost predicate Uses(m: Message, name: Name) {
    name != [] &&
    (|| (|m| > BODY && m[0] == 68 && m[BODY] == 83 && StringAt(m, BODY + 1, name))
     || (|m| >= BODY && m[0] == 66 && exists portal: Name ::
          StringAt(m, BODY, portal) && StringAt(m, BODY + |portal| + 1, name)))
  }
}
