/** Order-preserving subsequences. */
module Seqs {

  /** `a` can be obtained from `b` by deleting elements, keeping the rest in order. */
  predicate IsSubseq<T(==)>(a: seq<T>, b: seq<T>)
    decreases |b|
  {
    if a == [] then true
    else if b == [] then false
    else (a[0] == b[0] && IsSubseq(a[1..], b[1..])) || IsSubseq(a, b[1..])
  }

  /** A subsequence stays one when more elements are put in front of the whole. */
  lemma {:induction false} SubseqOfLonger<T>(a: seq<T>, p: seq<T>, b: seq<T>)
    requires IsSubseq(a, b)
    ensures IsSubseq(a, p + b)
    decreases |p|
  {
    if p != [] {
      SubseqOfLonger(a, p[1..], b);
      assert (p + b)[1..] == p[1..] + b;
      assert a == [] || IsSubseq(a, (p + b)[1..]);
    } else {
      assert p + b == b;
    }
  }

  /** Extending both sides by the same first element keeps the relation. */
  lemma SubseqCons<T>(x: T, a: seq<T>, b: seq<T>)
    requires IsSubseq(a, b)
    ensures IsSubseq([x] + a, [x] + b)
  {
    assert ([x] + a)[1..] == a;
    assert ([x] + b)[1..] == b;
  }
}
