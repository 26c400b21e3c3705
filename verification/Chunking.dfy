/**
 Cutting a list into consecutive chunks, as pkg/embedding/batch.go does before it dispatches work.
 `Chunks` is the specification; `SplitChunks` is the loop of the source.
 */
module Chunking {

  function Min(a: int, b: int): int {
    if a < b then a else b
  }

  function Chunks<T>(xs: seq<T>, size: nat): (cs: seq<seq<T>>)
    requires size > 0
    decreases |xs|
  {
    if xs == [] then [] else [xs[..Min(size, |xs|)]] + Chunks(xs[Min(size, |xs|)..], size)
  }

  method SplitChunks<T>(xs: seq<T>, size: nat) returns (chunks: seq<seq<T>>)
    requires size > 0
    ensures chunks == Chunks(xs, size)
  {
    chunks := [];
    var i := 0;
    while i < |xs|
      invariant 0 <= i
      invariant chunks + Chunks(xs[Min(i, |xs|)..], size) == Chunks(xs, size)
    {
      var end := i + size;
      if end > |xs| {
        end := |xs|;
      }
      assert xs[i..][..Min(size, |xs| - i)] == xs[i..end];
      assert xs[i..][Min(size, |xs| - i)..] == xs[end..];
      chunks := chunks + [xs[i..end]];
      i := i + size;
    }
  }

  function Offset(c: nat, size: nat): nat {
    if c == 0 then 0 else Offset(c - 1, size) + size
  }

  lemma {:induction false} OffsetIsProduct(c: nat, size: nat)
    ensures Offset(c, size) == c * size
  {
    if c > 0 {
      OffsetIsProduct(c - 1, size);
      assert c * size == (c - 1) * size + size;
    }
  }

  /** Chunk `c` is the slice starting at `c * size`, and the slices cover the list. */
  lemma {:induction false} ChunkIsSlice<T>(xs: seq<T>, size: nat, c: nat)
    requires size > 0
    requires c < |Chunks(xs, size)|
    ensures var lo := Offset(c, size);
            && lo < |xs|
            && Chunks(xs, size)[c] == xs[lo..Min(lo + size, |xs|)]
            && (c + 1 == |Chunks(xs, size)| <==> |xs| <= lo + size)
    decreases c
  {
    var k := Min(size, |xs|);
    if c == 0 {
      assert xs[k..] == [] <==> |xs| <= size;
    } else {
      ChunkIsSlice(xs[k..], size, c - 1);
      var lo := Offset(c - 1, size);
      assert xs[k..][lo..Min(lo + size, |xs| - size)] == xs[lo + size..Min(lo + size + size, |xs|)];
    }
  }

  /** The chunks, laid end to end, are the list: nothing is lost, doubled or reordered. */
  lemma {:induction false} ChunksFlatten<T>(xs: seq<T>, size: nat)
    requires size > 0
    ensures Flatten(Chunks(xs, size)) == xs
    decreases |xs|
  {
    if xs != [] {
      var k := Min(size, |xs|);
      ChunksFlatten(xs[k..], size);
      assert Chunks(xs, size)[1..] == Chunks(xs[k..], size);
    }
  }

  function Flatten<T>(cs: seq<seq<T>>): seq<T> {
    if cs == [] then [] else cs[0] + Flatten(cs[1..])
  }
}
