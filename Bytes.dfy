/** Bytes and the concatenation of byte buffers. */
module Bytes {

  newtype byte = x: int | 0 <= x < 256

  predicate AllEmpty(chunks: seq<seq<byte>>)
  {
    forall i :: 0 <= i < |chunks| ==> chunks[i] == []
  }

  /** The in-order concatenation of a list of buffers, with nothing inserted between them. */
  function Flatten(chunks: seq<seq<byte>>): (r: seq<byte>)
    ensures r == [] <==> AllEmpty(chunks)
  {
    if chunks == [] then [] else Flatten(chunks[..|chunks| - 1]) + chunks[|chunks| - 1]
  }

  /** The sum of the lengths of a list of buffers. */
  function TotalLength(chunks: seq<seq<byte>>): (n: nat)
    ensures forall i :: 0 <= i < |chunks| ==> |chunks[i]| <= n
  {
    if chunks == [] then 0 else |chunks[0]| + TotalLength(chunks[1..])
  }

  /** Concatenating two lists of buffers and then flattening is flattening each and joining. */
  lemma {:induction false} FlattenAppend(a: seq<seq<byte>>, b: seq<seq<byte>>)
    ensures Flatten(a + b) == Flatten(a) + Flatten(b)
    decreases |b|
  {
    if b == [] {
      assert a + b == a;
    } else {
      var b' := b[..|b| - 1];
      assert (a + b)[..|a + b| - 1] == a + b';
      FlattenAppend(a, b');
    }
  }

  /** The payload holds exactly as many bytes as the buffers together. */
  lemma {:induction false} FlattenLength(chunks: seq<seq<byte>>)
    ensures |Flatten(chunks)| == TotalLength(chunks)
    decreases |chunks|
  {
    if chunks != [] {
      FlattenLength(chunks[1..]);
      FlattenAppend([chunks[0]], chunks[1..]);
      assert [chunks[0]] + chunks[1..] == chunks;
      assert Flatten([chunks[0]]) == Flatten([]) + chunks[0];
    }
  }

  /** Every buffer appears in the payload, at the offset given by the lengths of the buffers before it. */
  lemma FlattenContains(chunks: seq<seq<byte>>, k: nat)
    requires k < |chunks|
    ensures TotalLength(chunks[..k]) + |chunks[k]| <= |Flatten(chunks)|
    ensures Flatten(chunks)[TotalLength(chunks[..k])..TotalLength(chunks[..k]) + |chunks[k]|] == chunks[k]
  {
    assert chunks == chunks[..k] + [chunks[k]] + chunks[k + 1..];
    FlattenAppend(chunks[..k] + [chunks[k]], chunks[k + 1..]);
    FlattenAppend(chunks[..k], [chunks[k]]);
    assert Flatten([chunks[k]]) == Flatten([]) + chunks[k];
    FlattenLength(chunks[..k]);
  }
}
