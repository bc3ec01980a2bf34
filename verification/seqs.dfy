/** Facts about sequences shared by the byte codecs and the text writer. */
module Seqs {

  /** Appending is associative; the codecs and the writer regroup appended pieces with it. */
  lemma Assoc<T>(a: seq<T>, b: seq<T>, c: seq<T>)
    ensures a + b + c == a + (b + c)
  {
  }

  /** An index into the front part of a concatenation reads the front part. */
  lemma IndexInFront<T>(a: seq<T>, b: seq<T>, i: nat)
    requires i < |a|
    ensures i < |a + b| && (a + b)[i] == a[i]
  {
  }

  /** The back part of a concatenation starts after the front part. */
  lemma IndexInBack<T>(a: seq<T>, b: seq<T>, k: nat)
    requires k < |b|
    ensures |a| + k < |a + b| && (a + b)[|a| + k] == b[k]
  {
  }
}
