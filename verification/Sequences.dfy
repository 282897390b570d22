/** A fact about sequences that the solver does not find by itself. */
module Sequences {

  lemma Regroup<T>(a: seq<T>, b: seq<T>, c: seq<T>)
    ensures (a + b) + c == a + (b + c)
  {
  }
}
