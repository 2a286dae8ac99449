/** Facts about concatenation and slicing, proved once over any element type so that the
    proofs about the pipeline's own sequences can cite them instead of rediscovering them. */
module Seqs {

  lemma ConcatAssociative<T>(x: seq<T>, y: seq<T>, z: seq<T>)
    ensures x + (y + z) == (x + y) + z
  {
  }

  lemma ConcatTail<T>(x: seq<T>, y: seq<T>)
    requires x != []
    ensures (x + y)[0] == x[0] && (x + y)[1..] == x[1..] + y
  {
  }

  /** A slice that lies inside the first operand of a concatenation. */
  lemma SliceOfFirst<T>(x: seq<T>, y: seq<T>, lo: nat, hi: nat)
    requires lo <= hi <= |x|
    ensures (x + y)[lo..hi] == x[lo..hi]
  {
  }

  /** The slice that covers exactly the second operand. */
  lemma SliceOfSecond<T>(x: seq<T>, y: seq<T>)
    ensures (x + y)[|x|..|x| + |y|] == y
  {
  }

  /** A slice of a slice is a slice. */
  lemma SliceOfSlice<T>(s: seq<T>, block: seq<T>, item: seq<T>, lo: nat, size: nat, off: nat)
    requires lo + size <= |s| && s[lo .. lo + size] == block
    requires off + |item| <= size && block[off .. off + |item|] == item
    ensures lo + off + |item| <= |s| && s[lo + off .. lo + off + |item|] == item
  {
    forall i | 0 <= i < |item|
      ensures s[lo + off .. lo + off + |item|][i] == item[i]
    {
      assert item[i] == block[off + i] == s[lo + off + i];
    }
  }
}
