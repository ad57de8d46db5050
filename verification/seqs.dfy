// Facts about sequences that the walk and rewrite lemmas cite, stated once
// so that the proofs using them need not unfold concatenation themselves.

module Seqs {

  /** Taking the first element off a concatenation. */
  lemma HeadAppend<T>(a: seq<T>, b: seq<T>)
    requires |a| > 0
    ensures (a + b)[0] == a[0]
    ensures (a + b)[1..] == a[1..] + b
  {
  }

  /** Dropping past the whole of `a` from `a + b` drops from `b`. */
  lemma DropAppend<T>(a: seq<T>, b: seq<T>, j: nat)
    requires j <= |b|
    ensures (a + b)[|a| + j..] == b[j..]
  {
  }

  /** Concatenation is associative. */
  lemma AppendAssoc<T>(x: seq<T>, y: seq<T>, z: seq<T>)
    ensures (x + y) + z == x + (y + z)
  {
  }
}
