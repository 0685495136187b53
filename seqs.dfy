/** Generic sequence helpers shared by the parsers and the job store. */
module Seqs {
  /** `f` applied to every element. */
  function Map<A, B>(f: A -> B, xs: seq<A>): (r: seq<B>)
    ensures |r| == |xs|
  {
    seq(|xs|, k requires 0 <= k < |xs| => f(xs[k]))
  }

  lemma MapConcat<A, B>(f: A -> B, a: seq<A>, b: seq<A>)
    ensures Map(f, a + b) == Map(f, a) + Map(f, b)
  {
    assert forall k :: 0 <= k < |a| ==> (a + b)[k] == a[k];
    assert forall k :: 0 <= k < |b| ==> (a + b)[|a| + k] == b[k];
  }

  lemma MapCons<A, B>(f: A -> B, xs: seq<A>)
    requires |xs| > 0
    ensures Map(f, xs) == [f(xs[0])] + Map(f, xs[1..])
  {
  }
}
