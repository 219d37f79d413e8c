/** Byte strings, and the one operation the sinks make of a list of chunks: joining them in order. */
module Bytes {

  type Bytes = seq<bv8>

  datatype Option<+T> = None | Some(value: T)

  /** The chunks joined in order. */
  function Concat(chunks: seq<Bytes>): Bytes {
    if chunks == [] then [] else chunks[0] + Concat(chunks[1..])
  }

  lemma {:induction false} ConcatSplits(a: seq<Bytes>, b: seq<Bytes>)
    ensures Concat(a + b) == Concat(a) + Concat(b)
  {
    if a == [] {
      assert a + b == b;
    } else {
      assert (a + b)[1..] == a[1..] + b;
      ConcatSplits(a[1..], b);
    }
  }

  lemma ConcatAppends(chunks: seq<Bytes>, last: Bytes)
    ensures Concat(chunks + [last]) == Concat(chunks) + last
  {
    ConcatSplits(chunks, [last]);
    assert Concat([last]) == last + Concat([]);
  }
}
