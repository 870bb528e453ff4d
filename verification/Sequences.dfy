/** What the verifier has to be told about sequences. */
module Sequences {
  lemma Joined<T>(a: seq<T>, b: seq<T>, c: seq<T>)
    ensures (a + b) + c == a + (b + c)
  {
  }
}
