/** Bytes and buffer sequences: what capy's buffer_copy(), consuming_buffers and
    const_buffer_array compute, on values. */
module Bytes {

  newtype byte = x: int | 0 <= x < 256

  datatype Option<+T> = None | Some(value: T)

  /** A ConstBufferSequence: the bytes each descriptor points at. */
  type Buffers = seq<seq<byte>>

  function Min(a: nat, b: nat): nat {
    if a <= b then a else b
  }

  function Bit(b: bool): nat {
    if b then 1 else 0
  }

  function Flatten(bs: Buffers): seq<byte> {
    if bs == [] then [] else bs[0] + Flatten(bs[1..])
  }

  lemma {:induction false} FlattenConcat(a: Buffers, b: Buffers)
    ensures Flatten(a + b) == Flatten(a) + Flatten(b)
  {
    if a == [] {
      assert a + b == b;
    } else {
      assert (a + b)[1..] == a[1..] + b;
      FlattenConcat(a[1..], b);
    }
  }

  lemma Assoc(a: seq<byte>, b: seq<byte>, c: seq<byte>)
    ensures a + (b + c) == (a + b) + c
  {}

  lemma FlattenNone()
    ensures Flatten([]) == []
  {}

  lemma FlattenOne(b: seq<byte>)
    ensures Flatten([b]) == b
  {
    assert Flatten([b]) == b + Flatten([]);
  }

  lemma FlattenAppend(a: Buffers, b: seq<byte>)
    ensures Flatten(a + [b]) == Flatten(a) + b
  {
    FlattenConcat(a, [b]);
    FlattenOne(b);
  }

  ghost predicate NonEmptyBuffers(bs: Buffers) {
    forall i :: 0 <= i < |bs| ==> |bs[i]| > 0
  }

  /** consuming_buffers::consume: the sequence left once `n` bytes are gone from its front. */
  function DropBytes(bs: Buffers, n: nat): (r: Buffers)
    ensures Flatten(r) == Flatten(bs)[Min(n, |Flatten(bs)|)..]
    ensures |r| <= |bs|
  {
    if bs == [] || n == 0 then bs
    else if n < |bs[0]| then
      [bs[0][n..]] + bs[1..]
    else
      var r := DropBytes(bs[1..], n - |bs[0]|);
      assert Flatten(bs)[|bs[0]|..] == Flatten(bs[1..]);
      r
  }

  /** buffer_copy into a destination of `length` bytes: the bytes that arrive. */
  function Gather(bs: Buffers, length: nat): (r: seq<byte>)
    ensures |r| <= length && r <= Flatten(bs)
    ensures r == Flatten(bs) || |r| == length
  {
    Flatten(bs)[..Min(length, |Flatten(bs)|)]
  }

  /** capy's iovec bound, max_iovec_. */
  const MAX_IOVEC: nat := 16

  /** const_buffer_array<max_iovec_>: the first MAX_IOVEC descriptors. */
  function Capped(bs: Buffers): (r: Buffers)
    ensures r <= bs && |r| == Min(MAX_IOVEC, |bs|) && (|bs| <= MAX_IOVEC ==> r == bs)
    ensures Flatten(r) <= Flatten(bs)
  {
    var k := Min(MAX_IOVEC, |bs|);
    assert bs == bs[..k] + bs[k..];
    FlattenConcat(bs[..k], bs[k..]);
    bs[..k]
  }
}
