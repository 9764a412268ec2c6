/**
 What the cache is meant to be: a byte array with a cursor. An array may be `cut`: then
 the byte at an address is kept where the cache looks for it, after the casts to 32 bits.
 */
module FlatArray {
  import opened Bytes
  import opened BlockCache

  // ---------- The operations of a user ----------

  datatype Op =
    | SeekOp(from: SeekFrom)
    | ReadOp(n: nat)
    | WriteOp(bytes: seq<byte>)
    | FlushOp
    | FillOp
    | ConsumeOp(amt: nat)

  /** `Moved` carries the bytes that were read, written or handed out. */
  datatype Response = At(pos: nat) | Moved(data: seq<byte>, ok: bool)

  // ---------- The array ----------

  datatype Flat = Flat(bytes: seq<byte>, blockSize: nat, start: nat, idx: nat, cut: bool)
  {
    function RawIdx(): nat { start + idx }

    /** Where the byte at address `x` is kept. */
    function PlaceOf(x: nat): nat
      requires blockSize > 0
    {
      if cut then Place(blockSize, x) else x
    }

    predicate Has(x: nat)
      requires blockSize > 0
      ensures Has(x) ==> PlaceOf(x) < |bytes|
    {
      if cut then Reachable(|bytes|, blockSize, x) else x < |bytes|
    }

    function Onward(n: nat): Flat {
      this.(idx := idx + n)
    }

    /** The byte under the cursor becomes `b`, and the cursor moves on. */
    function Put(b: byte): Flat
      requires blockSize > 0 && Has(RawIdx())
    {
      this.(bytes := bytes[PlaceOf(RawIdx()) := b], idx := idx + 1)
    }
  }

  /** The array has all of the `n` bytes from the cursor on. */
  predicate Covers(f: Flat, n: nat)
    requires f.blockSize > 0
  {
    forall x :: f.RawIdx() <= x < f.RawIdx() + n ==> f.Has(x)
  }

  /** `data` is what the array holds from the cursor on. */
  predicate Holds(f: Flat, data: seq<byte>)
    requires f.blockSize > 0
  {
    forall x :: f.RawIdx() <= x < f.RawIdx() + |data| ==> f.Has(x) && data[x - f.RawIdx()] == f.bytes[f.PlaceOf(x)]
  }

  /** The array after storing `data` from the cursor on, byte by byte, as far as there is room. */
  function Stored(f: Flat, data: seq<byte>): (r: seq<byte>)
    requires f.blockSize > 0
    ensures |r| == |f.bytes|
    decreases |data|
  {
    if data == [] || !f.Has(f.RawIdx()) then f.bytes else Stored(f.Put(data[0]), data[1..])
  }

  /** How many of the `n` bytes from the cursor on the array has before one is missing. */
  function Reach(f: Flat, n: nat): (r: nat)
    requires f.blockSize > 0
    ensures r <= n
    decreases n
  {
    if n == 0 || !f.Has(f.RawIdx()) then 0 else 1 + Reach(f.Onward(1), n - 1)
  }

  /** `g` has the geometry of `f`, and its cursor one byte on. */
  predicate NextTo(f: Flat, g: Flat) {
    g.RawIdx() == f.RawIdx() + 1 && g.blockSize == f.blockSize && |g.bytes| == |f.bytes| && g.cut == f.cut
  }

  lemma CoversCons(f: Flat, g: Flat, n: nat)
    requires f.blockSize > 0 && f.Has(f.RawIdx()) && NextTo(f, g) && Covers(g, n)
    ensures Covers(f, n + 1)
  {
    hide Reachable;
    forall x | f.RawIdx() <= x < f.RawIdx() + n + 1 ensures f.Has(x) {
      if x > f.RawIdx() {
        assert g.Has(x);
      }
    }
  }

  lemma CoversNothing(f: Flat)
    requires f.blockSize > 0
    ensures Covers(f, 0)
  {
  }

  lemma {:induction false} ReachCovers(f: Flat, n: nat)
    requires f.blockSize > 0
    ensures Covers(f, Reach(f, n))
    ensures Reach(f, n) < n ==> !f.Has(f.RawIdx() + Reach(f, n))
    decreases n
  {
    hide Reachable, Place, Covers;
    if n == 0 || !f.Has(f.RawIdx()) {
      CoversNothing(f);
    } else {
      ReachCovers(f.Onward(1), n - 1);
      CoversCons(f, f.Onward(1), Reach(f.Onward(1), n - 1));
      assert f.Onward(1).RawIdx() + Reach(f.Onward(1), n - 1) == f.RawIdx() + Reach(f, n);
    }
  }

  /** The `n` bytes from the cursor on. */
  function Peek(f: Flat, n: nat): (r: seq<byte>)
    requires f.blockSize > 0 && Covers(f, n)
    ensures |r| == n && Holds(f, r)
  {
    seq(n, i requires 0 <= i < n && f.Has(f.RawIdx() + i) => f.bytes[f.PlaceOf(f.RawIdx() + i)])
  }

  /** Where a seek goes; one that would go in front of the partition is not asked for. */
  function FlatTarget(f: Flat, from: SeekFrom): nat {
    match from
    case Start(p) => p
    case Current(off) => if f.idx + off >= 0 then f.idx + off else 0
  }

  /** The array can give this answer; a failed operation moved a proper prefix. */
  predicate FlatAllows(f: Flat, op: Op, resp: Response)
    requires f.blockSize > 0
  {
    match op
    case SeekOp(from) => resp == At(FlatTarget(f, from))
    case ReadOp(n) => resp.Moved? && |resp.data| <= n && Holds(f, resp.data) && (resp.ok <==> |resp.data| == n)
    case WriteOp(bytes) =>
      && resp.Moved?
      && resp.data <= bytes
      && Covers(f, |resp.data|)
      && (resp.ok <==> resp.data == bytes)
    case FlushOp => resp.Moved? && resp.data == []
    case FillOp =>
      && resp.Moved?
      && Holds(f, resp.data)
      && |resp.data| == if resp.ok then f.blockSize - OffsetIn(f.RawIdx(), f.blockSize) else 0
    case ConsumeOp(_) => resp == Moved([], true)
  }

  function FlatNext(f: Flat, op: Op, resp: Response): (g: Flat)
    requires f.blockSize > 0
    ensures g.blockSize == f.blockSize && |g.bytes| == |f.bytes| && g.start == f.start && g.cut == f.cut
  {
    match resp
    case At(pos) => f.(idx := pos)
    case Moved(data, _) =>
      match op
      case ReadOp(_) => f.Onward(|data|)
      case WriteOp(_) => f.Onward(|data|).(bytes := Stored(f, data))
      case ConsumeOp(amt) => f.Onward(amt)
      case _ => f
  }

  predicate FlatAllowsRun(f: Flat, ops: seq<Op>, rs: seq<Response>)
    requires f.blockSize > 0
    decreases |ops|
  {
    && |rs| == |ops|
    && (ops == [] || (FlatAllows(f, ops[0], rs[0]) && FlatAllowsRun(FlatNext(f, ops[0], rs[0]), ops[1..], rs[1..])))
  }

  function FlatRun(f: Flat, ops: seq<Op>, rs: seq<Response>): Flat
    requires f.blockSize > 0 && |rs| == |ops|
    decreases |ops|
  {
    if ops == [] then f else FlatRun(FlatNext(f, ops[0], rs[0]), ops[1..], rs[1..])
  }

  /** The answer of the array when nothing fails but running into an address it does not have. */
  function FlatAnswer(f: Flat, op: Op): Response
    requires f.blockSize > 0
  {
    match op
    case SeekOp(from) => At(FlatTarget(f, from))
    case ReadOp(n) =>
      ReachCovers(f, n);
      Moved(Peek(f, Reach(f, n)), Reach(f, n) == n)
    case WriteOp(bytes) => Moved(bytes[..Reach(f, |bytes|)], Reach(f, |bytes|) == |bytes|)
    case FlushOp => Moved([], true)
    case FillOp =>
      var n := Reach(f, f.blockSize - OffsetIn(f.RawIdx(), f.blockSize));
      ReachCovers(f, f.blockSize - OffsetIn(f.RawIdx(), f.blockSize));
      Moved(Peek(f, n), n > 0)
    case ConsumeOp(_) => Moved([], true)
  }

  function FlatAnswers(f: Flat, ops: seq<Op>): seq<Response>
    requires f.blockSize > 0
    decreases |ops|
  {
    if ops == [] then []
    else
      var a := FlatAnswer(f, ops[0]);
      [a] + FlatAnswers(FlatNext(f, ops[0], a), ops[1..])
  }

  // ---------- Storing and holding, byte by byte ----------

  lemma HoldsNothing(f: Flat)
    requires f.blockSize > 0
    ensures Holds(f, []) && Covers(f, 0)
  {
  }

  lemma HoldsCons(f: Flat, b: byte, rest: seq<byte>)
    requires f.blockSize > 0 && f.Has(f.RawIdx()) && b == f.bytes[f.PlaceOf(f.RawIdx())]
    requires Holds(f.Onward(1), rest)
    ensures Holds(f, [b] + rest)
  {
    hide Reachable, Place;
    forall x | f.RawIdx() <= x < f.RawIdx() + |[b] + rest|
      ensures f.Has(x) && ([b] + rest)[x - f.RawIdx()] == f.bytes[f.PlaceOf(x)]
    {
      if x > f.RawIdx() {
        assert f.Onward(1).Has(x);
        assert ([b] + rest)[x - f.RawIdx()] == rest[x - f.Onward(1).RawIdx()];
      }
    }
  }

  lemma StoredNothing(f: Flat)
    requires f.blockSize > 0
    ensures Stored(f, []) == f.bytes
  {
  }

  lemma StoredCons(f: Flat, b: byte, rest: seq<byte>)
    requires f.blockSize > 0 && f.Has(f.RawIdx())
    ensures Stored(f, [b] + rest) == Stored(f.Put(b), rest)
  {
    hide Reachable, Place;
    assert ([b] + rest)[1..] == rest;
  }

  /** The reach of the array is the longest prefix it has. */
  lemma ReachIs(f: Flat, n: nat, k: nat)
    requires f.blockSize > 0 && k <= n && Covers(f, k) && (k < n ==> !f.Has(f.RawIdx() + k))
    ensures Reach(f, n) == k
  {
    hide Reachable, Place, Reach;
    ReachCovers(f, n);
    var r := Reach(f, n);
    assert k < n ==> !f.Has(f.RawIdx() + k);
    assert r < n ==> !f.Has(f.RawIdx() + r);
  }

  /** What the array holds from the cursor on is what a look at it gives. */
  lemma HoldsIsPeek(f: Flat, data: seq<byte>)
    requires f.blockSize > 0 && Holds(f, data)
    ensures Covers(f, |data|) && data == Peek(f, |data|)
  {
    hide Reachable, Place;
    forall i | 0 <= i < |data| ensures data[i] == Peek(f, |data|)[i] {
      assert f.Has(f.RawIdx() + i);
    }
  }

  /** In an array that is not cut, what is held is a slice. */
  lemma PlainHolds(f: Flat, data: seq<byte>)
    requires f.blockSize > 0 && !f.cut
    ensures Holds(f, data)
       <==> data == [] || (f.RawIdx() + |data| <= |f.bytes| && data == f.bytes[f.RawIdx()..f.RawIdx() + |data|])
  {
    var at := f.RawIdx();
    if data != [] && Holds(f, data) {
      assert f.Has(at + |data| - 1);
      forall i | 0 <= i < |data| ensures data[i] == f.bytes[at..at + |data|][i] {
        assert f.Has(at + i);
      }
    }
  }

  function Overwrite(bytes: seq<byte>, at: nat, data: seq<byte>): (r: seq<byte>)
    ensures |r| == |bytes|
  {
    if data == [] || at + |data| > |bytes| then bytes else Patch(bytes, at, data)
  }

  lemma OverwriteCons(bytes: seq<byte>, at: nat, b: byte, rest: seq<byte>)
    requires at + 1 + |rest| <= |bytes|
    ensures Overwrite(bytes[at := b], at + 1, rest) == Overwrite(bytes, at, [b] + rest)
  {
    assert bytes[at := b] == Patch(bytes, at, [b]);
    PatchAppend(bytes, at, [b], rest);
    assert [b] + [] == [b];
  }

  lemma OverwriteNothing(bytes: seq<byte>, at: nat)
    ensures Overwrite(bytes, at, []) == bytes
  {
  }

  /** In an array that is not cut, storing is overwriting a slice. */
  lemma {:induction false} PlainStored(f: Flat, data: seq<byte>)
    requires f.blockSize > 0 && !f.cut && (data == [] || f.RawIdx() + |data| <= |f.bytes|)
    ensures Stored(f, data) == Overwrite(f.bytes, f.RawIdx(), data)
    decreases |data|
  {
    hide Overwrite;
    if data == [] {
      assert Overwrite(f.bytes, f.RawIdx(), []) == f.bytes by {
        OverwriteNothing(f.bytes, f.RawIdx());
      }
    } else {
      PlainStored(f.Put(data[0]), data[1..]);
      OverwriteCons(f.bytes, f.RawIdx(), data[0], data[1..]);
      assert data == [data[0]] + data[1..];
    }
  }
}
