/** The stock optional value (an empty reference, an exception that was not thrown, an absent callback) and
    one fact about sequences that many proofs need. */
module Wrappers {
  datatype Option<+T> = None | Some(value: T)

  lemma Associate<T>(a: seq<T>, b: seq<T>, c: seq<T>)
    ensures a + (b + c) == (a + b) + c
  {
  }
}
