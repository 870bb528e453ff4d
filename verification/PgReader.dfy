/** The same stream as an object: the three positions and the channel, updated in place by
    the methods the reader and the consumer call. */
module PgReader {
  import opened PgStream
  import opened PgTheorems

  /** The highest of a position and a batch of positions. */
  function Highest(v: nat, ends: seq<nat>): nat
    decreases |ends|
  {
    if ends == [] then v else Highest(Max(v, ends[0]), ends[1..])
  }

  lemma {:induction false} HighestAppend(v: nat, ends: seq<nat>, e: nat)
    ensures Highest(v, ends + [e]) == Max(Highest(v, ends), e)
    decreases |ends|
  {
    if ends == [] {
      assert [e][1..] == [] && [] + [e] == [e];
    } else {
      assert (ends + [e])[1..] == ends[1..] + [e];
      HighestAppend(Max(v, ends[0]), ends[1..], e);
    }
  }

  class EventStream {
    var received: nat
    var lastPushed: nat
    var flushed: nat
    var events: seq<nat>     // the channel: the end of every buffered event
    var iterating: bool
    var closed: bool

    ghost function View(): Stream
      reads this
    {
      Stream(received, lastPushed, flushed, events, Idle, Waiting, [], 0)
    }

    constructor ()
      ensures View() == Stream(0, 0, 0, [], Idle, Waiting, [], 0) && !iterating && !closed
    {
      received, lastPushed, flushed, events, iterating, closed := 0, 0, 0, [], false, false;
    }

    method AdvanceFlushed(value: nat)
      modifies this`flushed
      ensures flushed == Max(old(flushed), value)
    {
      if value > flushed {
        flushed := value;
      }
    }

    method AdvanceReceived(value: nat)
      modifies this`received
      ensures received == Max(old(received), value)
    {
      if value > received {
        received := value;
      }
    }

    /** Confirms the server's end only with the pipeline drained. */
    method CatchUp(serverEnd: nat)
      modifies this`flushed, this`lastPushed
      ensures View() == CaughtUp(old(View()), serverEnd)
    {
      if |events| != 0 {
        return;
      }
      var pushed := lastPushed;
      if pushed != flushed || serverEnd <= pushed {
        return;
      }
      flushed := serverEnd;
      lastPushed := serverEnd;
    }

    method HandleKeepalive(serverEnd: nat)
      modifies this`received, this`flushed, this`lastPushed
      ensures View() == CaughtUp(old(View()).(received := Max(old(received), serverEnd)), serverEnd)
    {
      AdvanceReceived(serverEnd);
      CatchUp(serverEnd);
    }

    /** What a standby status reports: never a flush position past what was received. */
    method WriteStatus() returns (write: nat, flush: nat)
      ensures write == received && Confirming(View()).acks == [flush]
    {
      write := received;
      flush := Min(flushed, received);
    }

    /** Iterates the events handed over until a loop body stops it or the reader, exiting,
        has closed the channel. answers is what each body reports; the position is confirmed
        only after the body asked for more. A second iteration at once gets nothing; one
        that ends, however it ends, closes the stream. */
    method All(answers: seq<bool>) returns (returned: nat)
      requires |answers| >= |events|
      modifies this`events, this`flushed, this`iterating, this`closed
      ensures old(iterating) ==>
        returned == 0 && events == old(events) && flushed == old(flushed) && iterating && closed == old(closed)
      ensures !old(iterating) ==>
        && returned <= |old(events)| && (forall k :: 0 <= k < returned ==> answers[k])
        && (returned < |old(events)| ==> !answers[returned])
        && flushed == Highest(old(flushed), old(events)[..returned])
        && events == old(events)[if returned < |old(events)| then returned + 1 else returned..]
        && !iterating && closed
    {
      returned := 0;
      if iterating {
        return;
      }
      iterating := true;
      ghost var all := events;
      var more := true;
      while more && events != []
        invariant returned <= |all| && iterating
        invariant more ==> events == all[returned..]
        invariant !more ==> returned < |all| && !answers[returned] && events == all[returned + 1..]
        invariant forall k :: 0 <= k < returned ==> answers[k]
        invariant flushed == Highest(old(flushed), all[..returned])
        decreases |events|
      {
        var pending := events[0];
        events := events[1..];
        more := answers[returned];
        if more {
          AdvanceFlushed(pending);
          HighestAppend(old(flushed), all[..returned], pending);
          assert all[..returned + 1] == all[..returned] + [pending];
          returned := returned + 1;
        }
      }
      closed := true;
      iterating := false;
    }
  }

  /** One iteration moves the position to the last event whose body returned, and never
      onto one whose body did not: over rising events, nothing later is covered. */
  lemma {:induction false} HighestIsLast(v: nat, ends: seq<nat>, n: nat)
    requires n <= |ends| && (forall i :: 0 <= i < |ends| ==> v < ends[i])
    requires forall i, j :: 0 <= i < j < |ends| ==> ends[i] < ends[j]
    ensures Highest(v, ends[..n]) == if n == 0 then v else ends[n - 1]
    ensures forall k :: n <= k < |ends| ==> Highest(v, ends[..n]) < ends[k]
    decreases n
  {
    if n > 0 {
      HighestIsLast(v, ends, n - 1);
      HighestAppend(v, ends[..n - 1], ends[n - 1]);
      assert ends[..n] == ends[..n - 1] + [ends[n - 1]];
    }
  }
}
