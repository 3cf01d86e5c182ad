/** `Pair<F, S>`: an immutable two-field value class (`Pair.of(first, second)`).
    Both fields are final and there are no setters, so a Pair is a datatype value;
    the generated equality compares the two fields. */
module Pairs {

  datatype Pair<F, S> = Pair(first: F, second: S)

  /** The static factory `Pair.of`. */
  function Of<F, S>(first: F, second: S): (p: Pair<F, S>)
    ensures p.first == first && p.second == second
  {
    Pair(first, second)
  }

  /** Value equality: two pairs are equal exactly when both components are. */
  lemma PairEquality<F, S>(p: Pair<F, S>, q: Pair<F, S>)
    ensures p == q <==> p.first == q.first && p.second == q.second
  {
  }
}
