/** Moving framed messages between two sockets through one small reused buffer. */
module Relay {
  import opened Bytes
  import opened Options
  import opened Statements
  import opened Wire

  const RELAY_CHUNK: nat := 4096

  /** The first message of a byte stream and what follows it, if it is whole and its length
      field is one readHeader accepts. */
  function NextMessage(bytes: seq<byte>): Option<(Message, seq<byte>)> {
    if |bytes| < HEADER_SIZE || Length(bytes) < 4 || Length(bytes) > MAX_MESSAGE_LEN
      || |bytes| < Length(bytes) + 1 then None
    else Some((bytes[..Length(bytes) + 1], bytes[Length(bytes) + 1..]))
  }

  function Concat(messages: seq<Message>): seq<byte> {
    if messages == [] then [] else messages[0] + Concat(messages[1..])
  }

  /** The messages at the front of a stream, and what is left when the next is not whole or
      not acceptable. */
  function Messages(bytes: seq<byte>): (seq<Message>, seq<byte>)
    decreases |bytes|
  {
    match NextMessage(bytes)
    case None => ([], bytes)
    case Some((m, rest)) =>
      var (more, left) := Messages(rest);
      ([m] + more, left)
  }

  lemma FirstMessage(m: Message, rest: seq<byte>)
    requires Framed(m)
    ensures NextMessage(m + rest) == Some((m, rest))
  {
    assert (m + rest)[..|m|] == m && (m + rest)[|m|..] == rest;
    assert Length(m + rest) == Length(m);
  }

  /** Framing never drifts: a stream of framed messages is read back as those messages. */
  lemma {:induction false} FramingRoundTrip(messages: seq<Message>)
    requires forall m :: m in messages ==> Framed(m)
    ensures Messages(Concat(messages)) == (messages, [])
  {
    if messages != [] {
      FirstMessage(messages[0], Concat(messages[1..]));
      FramingRoundTrip(messages[1..]);
      assert [messages[0]] + messages[1..] == messages;
    }
  }

  lemma NextIsFramed(bytes: seq<byte>)
    requires NextMessage(bytes).Some?
    ensures var (m, rest) := NextMessage(bytes).value; Framed(m) && bytes == m + rest
  {
    var (m, rest) := NextMessage(bytes).value;
    assert Length(m) == Length(bytes);
  }

  lemma Joined(m: Message, more: seq<Message>, left: seq<byte>)
    ensures Concat([m] + more) + left == m + (Concat(more) + left)
  {
    assert ([m] + more)[1..] == more;
    assert (m + Concat(more)) + left == m + (Concat(more) + left);
  }

  /** Whatever the bytes: what is read is framed messages, and with what is left it is the
      whole stream. */
  lemma {:induction false} ReadingLosesNothing(bytes: seq<byte>)
    ensures var (messages, left) := Messages(bytes);
      && Concat(messages) + left == bytes && (forall m :: m in messages ==> Framed(m)) && NextMessage(left).None?
    decreases |bytes|
  {
    if NextMessage(bytes).Some? {
      var (m, rest) := NextMessage(bytes).value;
      NextIsFramed(bytes);
      ReadingLosesNothing(rest);
      var (more, left) := Messages(rest);
      Joined(m, more, left);
    }
  }

  class Source {
    var unread: seq<byte>

    /** io.ReadFull: fills data[from..to], or fails having used up what there was. */
    method ReadFull(data: array<byte>, from: nat, to: nat) returns (ok: bool)
      requires from <= to <= data.Length
      modifies this, data
      ensures ok == (|old(unread)| >= to - from)
      ensures ok ==> data[from..to] == old(unread)[..to - from] && unread == old(unread)[to - from..]
      ensures !ok ==> unread == []
      ensures data[..from] == old(data[..from]) && data[to..] == old(data[to..])
    {
      if |unread| < to - from {
        unread := [];
        return false;
      }
      forall i | from <= i < to {
        data[i] := unread[i - from];
      }
      unread := unread[to - from..];
      return true;
    }
  }

  /** Where messages go. accepts is how many writes it still takes before it fails. */
  class Sink {
    var written: seq<byte>
    var accepts: nat

    method Write(data: seq<byte>) returns (ok: bool)
      modifies this
      ensures ok == (old(accepts) > 0)
      ensures ok ==> written == old(written) + data && accepts == old(accepts) - 1
      ensures !ok ==> written == old(written) && accepts == 0
    {
      ok := accepts > 0;
      if ok {
        written, accepts := written + data, accepts - 1;
      }
    }
  }

  class Relay {
    const header: array<byte>
    const buf: array<byte>
    var msg: array<byte>

    ghost predicate Valid()
      reads this
    {
      header.Length == HEADER_SIZE && buf.Length == RELAY_CHUNK && header != buf && msg != header && msg != buf
    }

    constructor ()
      ensures Valid() && fresh(header) && fresh(buf) && fresh(msg)
    {
      header := new byte[HEADER_SIZE](_ => 0);
      buf := new byte[RELAY_CHUNK](_ => 0);
      msg := new byte[0];
    }

    /** Reads a header; a length out of range ends the relay. */
    method ReadHeader(src: Source) returns (found: Option<(byte, nat)>)
      requires Valid()
      modifies src, header
      ensures found.Some? <==>
        |old(src.unread)| >= 5 && 4 <= Length(old(src.unread)) <= 256 * 1024 * 1024
      ensures found.Some? ==>
        && header[..] == old(src.unread)[..HEADER_SIZE] && src.unread == old(src.unread)[HEADER_SIZE..]
        && found.value == (Kind(old(src.unread)), Length(old(src.unread)) - 4)
    {
      var ok := src.ReadFull(header, 0, HEADER_SIZE);
      if !ok {
        return None;
      }
      assert header[..] == header[0..HEADER_SIZE];
      var length := Length(header[..]);
      if length < 4 || length > MAX_MESSAGE_LEN {
        return None;
      }
      return Some((header[0], length - 4));
    }

    /** Writes the header and moves the body on, in passes if it is larger than the buffer.
        The body is returned only if it fitted. */
    method ForwardBody(dst: Sink, src: Source, bodyLen: nat) returns (ok: bool, body: seq<byte>)
      requires Valid()
      modifies dst, src, buf
      ensures ok ==> bodyLen <= |old(src.unread)| && src.unread == old(src.unread)[bodyLen..]
      ensures ok ==> dst.written == old(dst.written) + header[..] + old(src.unread)[..bodyLen]
      ensures ok ==> body == if bodyLen <= 4096 then old(src.unread)[..bodyLen] else []
      ensures !ok ==> old(dst.written) <= dst.written && dst.written <= old(dst.written) + header[..] + old(src.unread)
      ensures !ok ==> bodyLen > |old(src.unread)| || dst.accepts == 0
    {
      body := [];
      ghost var all, sent := src.unread, dst.written;
      ok := dst.Write(header[..]);
      if !ok || bodyLen == 0 {
        assert all[0..] == all && sent + header[..] + all[..0] == sent + header[..];
        return;
      }
      if bodyLen <= buf.Length {
        ok := src.ReadFull(buf, 0, bodyLen);
        if ok {
          assert buf[..bodyLen] == buf[0..bodyLen] == all[..bodyLen];
          body := buf[..bodyLen];
          ok := dst.Write(body);
        }
        return;
      }
      ok := CopyChunks(dst, src, bodyLen);
    }

    /** Moves the body on through the buffer, a chunk at a time. */
    method CopyChunks(dst: Sink, src: Source, bodyLen: nat) returns (ok: bool)
      requires Valid()
      modifies dst, src, buf
      ensures ok ==> bodyLen <= |old(src.unread)| && src.unread == old(src.unread)[bodyLen..]
      ensures ok ==> dst.written == old(dst.written) + old(src.unread)[..bodyLen]
      ensures old(dst.written) <= dst.written <= old(dst.written) + old(src.unread)
      ensures !ok ==> bodyLen > |old(src.unread)| || dst.accepts == 0
    {
      var remaining: nat := bodyLen;
      ghost var all, sent := src.unread, dst.written;
      ok := true;
      while remaining > 0
        invariant ok && remaining <= bodyLen && bodyLen - remaining <= |all|
        invariant src.unread == all[bodyLen - remaining..]
        invariant dst.written == sent + all[..bodyLen - remaining]
      {
        var chunk := if remaining < buf.Length then remaining else buf.Length;
        ghost var at := bodyLen - remaining;
        ok := src.ReadFull(buf, 0, chunk);
        if !ok {
          return;
        }
        assert buf[..chunk] == buf[0..chunk] == all[at..][..chunk] == all[at..at + chunk];
        ok := dst.Write(buf[..chunk]);
        if !ok {
          return;
        }
        assert all[..at] + all[at..at + chunk] == all[..at + chunk];
        assert sent + all[..at] + all[at..at + chunk] == sent + (all[..at] + all[at..at + chunk]);
        assert all[at..][chunk..] == all[at + chunk..];
        remaining := remaining - chunk;
      }
    }

    /** Reads a whole message into memory, its header first. */
    method ReadBody(src: Source, bodyLen: nat) returns (message: Option<seq<byte>>)
      requires Valid()
      modifies src, this, msg
      ensures Valid() && (msg == old(msg) || fresh(msg))
      ensures message.Some? <==> bodyLen <= |old(src.unread)|
      ensures message.Some? ==>
        message.value == header[..] + old(src.unread)[..bodyLen] && src.unread == old(src.unread)[bodyLen..]
    {
      var need := HEADER_SIZE + bodyLen;
      if msg.Length < need {
        msg := new byte[need](_ => 0);
      }
      forall i | 0 <= i < HEADER_SIZE {
        msg[i] := header[i];
      }
      assert msg[..HEADER_SIZE] == header[..];
      var ok := src.ReadFull(msg, HEADER_SIZE, need);
      if !ok {
        return None;
      }
      assert msg[..need] == msg[..HEADER_SIZE] + msg[HEADER_SIZE..need];
      return Some(msg[..need]);
    }

    /** Drops a body the other side must not see, and nothing more. */
    method DiscardBody(src: Source, bodyLen: nat) returns (ok: bool)
      requires Valid()
      modifies src, buf
      ensures ok == (bodyLen <= |old(src.unread)|)
      ensures ok ==> src.unread == old(src.unread)[bodyLen..]
    {
      var remaining: nat := bodyLen;
      ghost var all := src.unread;
      assert all[0..] == all;
      while remaining > 0
        invariant remaining <= bodyLen && bodyLen - remaining <= |all| && src.unread == all[bodyLen - remaining..]
      {
        var chunk := if remaining < buf.Length then remaining else buf.Length;
        ok := src.ReadFull(buf, 0, chunk);
        if !ok {
          return;
        }
        assert all[bodyLen - remaining..][chunk..] == all[bodyLen - remaining + chunk..];
        remaining := remaining - chunk;
      }
      ok := true;
    }

    /** Moves one whole message: exactly the next one of the source, byte for byte. */
    method Forward(dst: Sink, src: Source) returns (ok: bool)
      requires Valid()
      modifies dst, src, header, buf
      ensures ok ==> NextMessage(old(src.unread)).Some?
      ensures !ok ==> NextMessage(old(src.unread)).None? || dst.accepts == 0
      ensures ok ==>
        var (m, rest) := NextMessage(old(src.unread)).value;
        dst.written == old(dst.written) + m && src.unread == rest
    {
      ghost var all, sent := src.unread, dst.written;
      var found := ReadHeader(src);
      if found.None? {
        return false;
      }
      var bodyLen := found.value.1;
      ghost var body := src.unread;
      var sentWhole, _ := ForwardBody(dst, src, bodyLen);
      ok := sentWhole;
      if ok {
        assert all[..HEADER_SIZE] + body[..bodyLen] == all[..HEADER_SIZE + bodyLen];
        assert sent + all[..HEADER_SIZE] + body[..bodyLen] == sent + (all[..HEADER_SIZE] + body[..bodyLen]);
        assert body[bodyLen..] == all[HEADER_SIZE + bodyLen..];
      }
    }
  }
}
