/** Facts about sequences that several components use. */
module Sequences {

  lemma {:induction false} SeqAssociative<T>(x: seq<T>, y: seq<T>, z: seq<T>)
    ensures (x + y) + z == x + (y + z)
  {
  }

  /** Appending leaves a sequence as it was if and only if there is nothing to append. */
  lemma {:induction false} AppendingNothing<T>(x: seq<T>, y: seq<T>)
    ensures x + y == x <==> y == []
  {
    assert |x + y| == |x| + |y|;
  }

  /** The sum of some durations in seconds. */
  function Total(delays: seq<real>): real {
    if delays == [] then 0.0 else Total(delays[..|delays| - 1]) + delays[|delays| - 1]
  }
}
