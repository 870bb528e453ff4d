/** Recognising the completions of injected messages among a server's replies: by kind, in
    the order they were injected, first come. */
module Completions {
  import opened Bytes

  /** swallows: whether a reply answers an injected message, and what is owed then. */
  function Swallowed(owed: seq<byte>, kind: byte): (bool, seq<byte>) {
    if owed == [] || owed[0] != kind then (false, owed) else (true, owed[1..])
  }

  /** Reading replies of these kinds uses up everything owed. */
  predicate Matched(owed: seq<byte>, kinds: seq<byte>)
    decreases |kinds|
  {
    owed == [] || (kinds != [] && Matched(Swallowed(owed, kinds[0]).1, kinds[1..]))
  }

  /** Less owed is no harder to match. */
  lemma {:induction false} MatchedTail(owed: seq<byte>, kinds: seq<byte>)
    requires owed != [] && Matched(owed, kinds)
    ensures Matched(owed[1..], kinds)
    decreases |kinds|
  {
    var rest := Swallowed(owed, kinds[0]).1;
    if rest == owed {
      MatchedTail(owed, kinds[1..]);
    }
    if owed[1..] != [] && owed[1] == kinds[0] {
      MatchedTail(owed[1..], kinds[1..]);
    }
  }

  /** Nor are more replies. */
  lemma {:induction false} MatchedBehind(owed: seq<byte>, more: seq<byte>, kinds: seq<byte>)
    requires Matched(owed, kinds)
    ensures Matched(owed, more + kinds)
    decreases |more|
  {
    if more == [] {
      assert more + kinds == kinds;
    } else {
      MatchedBehind(owed, more[1..], kinds);
      assert (more + kinds)[0] == more[0] && (more + kinds)[1..] == more[1..] + kinds;
      if owed != [] && owed[0] == more[0] {
        MatchedTail(owed, more[1..] + kinds);
      }
    }
  }

  lemma {:induction false} MatchedConcat(owed: seq<byte>, kinds: seq<byte>, owed': seq<byte>, kinds': seq<byte>)
    requires Matched(owed, kinds) && Matched(owed', kinds')
    ensures Matched(owed + owed', kinds + kinds')
    decreases |kinds|
  {
    if owed == [] {
      assert owed + owed' == owed';
      MatchedBehind(owed', kinds, kinds');
    } else {
      var rest := Swallowed(owed, kinds[0]).1;
      assert (kinds + kinds')[0] == kinds[0] && (kinds + kinds')[1..] == kinds[1..] + kinds';
      assert Swallowed(owed + owed', kinds[0]).1 == rest + owed' by {
        assert (owed + owed')[1..] == owed[1..] + owed';
      }
      MatchedConcat(rest, kinds[1..], owed', kinds');
    }
  }

  /** Replies to the client's own messages may come in between. */
  lemma {:induction false} MatchedAround(owed: seq<byte>, before: seq<byte>, between: seq<byte>, after: seq<byte>)
    requires Matched(owed, before + after)
    ensures Matched(owed, before + between + after)
    decreases |before|
  {
    if before == [] {
      assert before + after == after && before + between + after == between + after;
      MatchedBehind(owed, between, after);
    } else if owed != [] {
      var all, less := before + between + after, before + after;
      assert less[0] == before[0] && less[1..] == before[1..] + after;
      assert all[0] == before[0] && all[1..] == before[1..] + between + after;
      MatchedAround(Swallowed(owed, before[0]).1, before[1..], between, after);
    }
  }

  lemma {:induction false} MatchedItself(owed: seq<byte>)
    ensures Matched(owed, owed)
  {
    if owed != [] {
      MatchedItself(owed[1..]);
    }
  }
}
