/** Small facts about sequence concatenation, stated once for any element
    type so that the proofs about lines of text do not have to rediscover them. */
module SeqFacts {

  lemma AppendEmpty<T>(x: seq<T>)
    ensures x + [] == x && [] + x == x
  {
  }

  lemma Associative<T>(x: seq<T>, y: seq<T>, z: seq<T>)
    ensures x + (y + z) == (x + y) + z
  {
  }

  lemma Associative4<T>(a: seq<T>, b: seq<T>, c: seq<T>, d: seq<T>)
    ensures a + b + c + d == a + (b + c + d)
  {
  }

  lemma PushThree<T>(a: seq<T>, x: T, y: T, z: T)
    ensures a + [x] + [y] + [z] == a + [x, y, z]
  {
  }

  /** The middle part of a three-way concatenation is found where it was put. */
  lemma MiddleSlice<T>(x: seq<T>, y: seq<T>, z: seq<T>)
    ensures (x + y + z)[|x|..|x| + |y|] == y
  {
  }

  /** Where the elements of each part of a concatenation end up. */
  lemma IndexLeft<T>(x: seq<T>, y: seq<T>, k: nat)
    requires k < |x|
    ensures k < |x + y| && (x + y)[k] == x[k]
  {
  }

  lemma IndexRight<T>(x: seq<T>, y: seq<T>, k: nat)
    requires k < |y|
    ensures |x| + k < |x + y| && (x + y)[|x| + k] == y[k]
  {
  }

  lemma TakeAll<T>(x: seq<T>)
    ensures x[..|x|] == x
  {
  }

  lemma TakeOneMore<T>(x: seq<T>, k: nat)
    requires k < |x|
    ensures x[..k + 1] == x[..k] + [x[k]]
  {
  }

  lemma SplitAt<T>(x: seq<T>, k: nat)
    requires k <= |x|
    ensures x == x[..k] + x[k..]
  {
  }
}
