/** Bytes, and the sequence and block arithmetic the other modules share. */
module Bytes {

  newtype byte = x: int | 0 <= x < 256

  /** The sequence `a` with the elements from position `at` on replaced by `b`. */
  function Patch<T>(a: seq<T>, at: nat, b: seq<T>): (r: seq<T>)
    requires at + |b| <= |a|
    ensures |r| == |a|
  {
    a[..at] + b + a[at + |b|..]
  }

  lemma PatchAt<T>(a: seq<T>, at: nat, b: seq<T>)
    requires at + |b| <= |a|
    ensures forall i :: 0 <= i < |a| ==>
              Patch(a, at, b)[i] == if at <= i < at + |b| then b[i - at] else a[i]
  {
  }

  lemma PatchSlice<T>(a: seq<T>, at: nat, b: seq<T>)
    requires at + |b| <= |a|
    ensures Patch(a, at, b)[at..at + |b|] == b
  {
  }

  lemma PatchSelf<T>(a: seq<T>, at: nat, b: seq<T>)
    requires at + |b| <= |a| && b == a[at..at + |b|]
    ensures Patch(a, at, b) == a
  {
  }

  /** Patching first `b` and then, right behind it, `c` is patching `b + c`. */
  lemma PatchAppend<T>(a: seq<T>, at: nat, b: seq<T>, c: seq<T>)
    requires at + |b| + |c| <= |a|
    ensures Patch(Patch(a, at, b), at + |b|, c) == Patch(a, at, b + c)
  {
  }

  // ---------- Blocks ----------

  /** The number of the block that holds address `x`. */
  function BlockOf(x: nat, size: nat): nat
    requires size > 0
  {
    x / size
  }

  function OffsetIn(x: nat, size: nat): nat
    requires size > 0
  {
    x % size
  }

  /** The address block `k` starts at. */
  function BlockStart(size: nat, k: nat): nat {
    size * k
  }

  predicate WholeBlocks(total: nat, size: nat) {
    size > 0 && total % size == 0
  }

  lemma MulMono(x: nat, a: nat, b: nat)
    requires a <= b
    ensures x * a <= x * b
  {
  }

  lemma BlockStartNext(size: nat, k: nat)
    ensures BlockStart(size, k + 1) == BlockStart(size, k) + size
  {
  }

  lemma BlockStartMono(size: nat, a: nat, b: nat)
    requires a < b
    ensures BlockStart(size, a) + size <= BlockStart(size, b)
  {
    BlockStartNext(size, a);
    MulMono(size, a + 1, b);
  }

  /** An address is in its block, in no other, and its block is in the device with it. */
  lemma BlockFacts(x: nat, size: nat)
    requires size > 0
    ensures BlockStart(size, BlockOf(x, size)) + OffsetIn(x, size) == x
    ensures OffsetIn(x, size) < size
  {
  }

  lemma BlockUnique(x: nat, size: nat, k: nat)
    requires size > 0
    ensures BlockStart(size, k) <= x < BlockStart(size, k) + size <==> k == BlockOf(x, size)
  {
    var q := BlockOf(x, size);
    BlockFacts(x, size);
    if k < q {
      BlockStartMono(size, k, q);
    } else if k > q {
      BlockStartMono(size, q, k);
    }
  }

  lemma StartsWhole(size: nat, count: nat)
    requires size > 0
    ensures WholeBlocks(BlockStart(size, count), size)
  {
    BlockFacts(BlockStart(size, count), size);
    BlockUnique(BlockStart(size, count), size, count);
  }

  /** A block that starts inside a whole number of blocks also ends inside it. */
  lemma BlockFits(size: nat, total: nat, k: nat)
    requires WholeBlocks(total, size)
    requires BlockStart(size, k) < total
    ensures BlockStart(size, k) + size <= total
  {
    var q := total / size;
    assert total == BlockStart(size, q);
    if k >= q {
      MulMono(size, q, k);
    } else {
      BlockStartMono(size, k, q);
    }
  }
}
