/**
 The casts to 32 bits: which runs of the cache are runs of a plain byte array, and what
 happens to the others.
 */
module AddressCut {
  import opened Bytes
  import opened BlockCache
  import opened CacheCoherence
  import opened FlatArray
  import opened CacheRefinement
  import opened CacheFrame

  // ---------- Addresses modulo 2^32 ----------

  lemma ModShift(k: nat, r: nat, size: nat)
    requires size > 0
    ensures (size * k + r) % size == r % size
  {
    var x := size * k + r;
    var q := r / size;
    assert x == size * (k + q) + r % size;
    BlockUnique(x, size, k + q);
  }

  lemma CutBlock(x: nat, size: nat)
    requires WholeBlocks(U32_LIMIT, size)
    ensures U32(x - x % size) == U32(x) - U32(x) % size && U32(x) % size == x % size
  {
    var m := U32_LIMIT / size;
    var q, r := x / U32_LIMIT, x % U32_LIMIT;
    assert U32_LIMIT == size * m;
    assert x == size * (m * q) + r;
    ModShift(m * q, r, size);
    assert x - x % size == U32_LIMIT * q + (r - r % size);
    ModShift(q, r - r % size, U32_LIMIT);
  }

  lemma PlaceIsCut(size: nat, x: nat)
    requires WholeBlocks(U32_LIMIT, size)
    ensures Place(size, x) == U32(x)
    ensures DeviceAddr(size, BlockOf(x, size)) == BlockStart(size, BlockOf(U32(x), size))
  {
    CutBlock(x, size);
    BlockFacts(x, size);
    BlockFacts(U32(x), size);
  }

  /** An address is on the device if its block is. */
  lemma BlockInside(bytes: seq<byte>, size: nat, x: nat)
    requires WholeBlocks(|bytes|, size)
    ensures x < |bytes| <==> BlockStart(size, BlockOf(x, size)) + size <= |bytes|
  {
    BlockFacts(x, size);
    if x < |bytes| {
      BlockFits(size, |bytes|, BlockOf(x, size));
    }
  }

  /**
   With blocks that divide 2^32, the cache addresses its device modulo 2^32: the byte at
   address `x` is the byte `x % 2^32` of the device, and is there if that byte is.
   */
  lemma CutIsModulo(f: Flat, x: nat)
    requires f.cut && WholeBlocks(U32_LIMIT, f.blockSize) && WholeBlocks(|f.bytes|, f.blockSize)
    ensures f.PlaceOf(x) == U32(x)
    ensures f.Has(x) <==> U32(x) < |f.bytes|
  {
    PlaceIsCut(f.blockSize, x);
    BlockInside(f.bytes, f.blockSize, U32(x));
  }

  // ---------- Runs below address 2^32 ----------

  /** The array with no address cut. */
  function Plain(f: Flat): Flat {
    f.(cut := false)
  }

  /** A byte whose block starts below 2^32 is where a plain array has it. */
  lemma CutIsPlain(f: Flat, x: nat)
    requires f.cut && WholeBlocks(|f.bytes|, f.blockSize)
    requires BlockStart(f.blockSize, BlockOf(x, f.blockSize)) < U32_LIMIT
    ensures f.PlaceOf(x) == x && (f.Has(x) <==> Plain(f).Has(x))
  {
    BlockFacts(x, f.blockSize);
    BlockInside(f.bytes, f.blockSize, x);
  }

  /** The blocks of the `n` bytes from the cursor on start below 2^32. */
  predicate BlocksBelow(f: Flat, n: nat)
    requires f.blockSize > 0
  {
    forall x :: f.RawIdx() <= x < f.RawIdx() + n ==> BlockStart(f.blockSize, BlockOf(x, f.blockSize)) < U32_LIMIT
  }

  lemma PlaceIsPlain(f: Flat, n: nat, x: nat)
    requires f.blockSize > 0 && f.cut && WholeBlocks(|f.bytes|, f.blockSize) && BlocksBelow(f, n)
    requires f.RawIdx() <= x < f.RawIdx() + n
    ensures f.PlaceOf(x) == x && Plain(f).PlaceOf(x) == x && (f.Has(x) <==> Plain(f).Has(x))
  {
    hide Place, Reachable;
    CutIsPlain(f, x);
  }

  lemma HeldIsPlain(f: Flat, n: nat, data: seq<byte>)
    requires f.blockSize > 0 && f.cut && WholeBlocks(|f.bytes|, f.blockSize) && BlocksBelow(f, n) && |data| <= n
    ensures Holds(f, data) <==> Holds(Plain(f), data)
    ensures Covers(f, |data|) <==> Covers(Plain(f), |data|)
  {
    hide BlockStart, BlockOf, Place, Reachable, WholeBlocks, BlocksBelow, Flat.PlaceOf, Flat.Has;
    forall x | f.RawIdx() <= x < f.RawIdx() + |data|
      ensures f.PlaceOf(x) == x && Plain(f).PlaceOf(x) == x && (f.Has(x) <==> Plain(f).Has(x))
    {
      PlaceIsPlain(f, n, x);
    }
  }

  lemma ReachIsPlain(f: Flat, n: nat)
    requires f.blockSize > 0 && f.cut && WholeBlocks(|f.bytes|, f.blockSize) && BlocksBelow(f, n)
    ensures Reach(f, n) == Reach(Plain(f), n) && Covers(f, Reach(f, n)) && Covers(Plain(f), Reach(f, n))
    ensures Peek(f, Reach(f, n)) == Peek(Plain(f), Reach(f, n))
  {
    hide BlockStart, BlockOf, Place, Reachable, WholeBlocks, BlocksBelow, Reach, Peek, Covers, Holds,
         Flat.PlaceOf, Flat.Has;
    var k := Reach(f, n);
    ReachCovers(f, n);
    var data := Peek(f, k);
    HeldIsPlain(f, n, data);
    HoldsIsPeek(Plain(f), data);
    if k < n {
      PlaceIsPlain(f, n, f.RawIdx() + k);
    }
    ReachIs(Plain(f), n, k);
  }

  lemma BlocksBelowNext(f: Flat, g: Flat, n: nat)
    requires f.blockSize > 0 && NextTo(f, g) && BlocksBelow(f, n) && n > 0
    ensures BlocksBelow(g, n - 1)
  {
    hide BlockStart, BlockOf;
  }

  lemma {:induction false} StoredIsPlain(f: Flat, data: seq<byte>)
    requires f.blockSize > 0 && f.cut && WholeBlocks(|f.bytes|, f.blockSize) && BlocksBelow(f, |data|)
    ensures Stored(Plain(f), data) == Stored(f, data)
    decreases |data|
  {
    hide BlockStart, BlockOf, Place, Reachable, WholeBlocks, BlocksBelow;
    if data == [] {
    } else {
      PlaceIsPlain(f, |data|, f.RawIdx());
      if f.Has(f.RawIdx()) {
        BlocksBelowNext(f, f.Put(data[0]), |data|);
        StoredIsPlain(f.Put(data[0]), data[1..]);
        assert Plain(f).Put(data[0]) == Plain(f.Put(data[0]));
      }
    }
  }

  /** How many bytes from the cursor on an operation is after. */
  function Span(f: Flat, op: Op): nat
    requires f.blockSize > 0
  {
    match op
    case ReadOp(n) => n
    case WriteOp(bytes) => |bytes|
    case FillOp =>
      BlockFacts(f.RawIdx(), f.blockSize);
      f.blockSize - OffsetIn(f.RawIdx(), f.blockSize)
    case _ => 0
  }

  /** The operation addresses bytes below 2^32 only; a look at a block starts below it. */
  predicate Below(f: Flat, op: Op) {
    match op
    case ReadOp(n) => n == 0 || f.RawIdx() + n <= U32_LIMIT
    case WriteOp(bytes) => bytes == [] || f.RawIdx() + |bytes| <= U32_LIMIT
    case FillOp => f.RawIdx() < U32_LIMIT
    case _ => true
  }

  lemma BelowBlocks(f: Flat, op: Op)
    requires f.blockSize > 0 && Below(f, op)
    ensures BlocksBelow(f, Span(f, op))
  {
    forall x | f.RawIdx() <= x < f.RawIdx() + Span(f, op)
      ensures BlockStart(f.blockSize, BlockOf(x, f.blockSize)) < U32_LIMIT
    {
      BlockFacts(x, f.blockSize);
      if op.FillOp? {
        SameBlock(f.blockSize, f.RawIdx(), x);
        BlockFacts(f.RawIdx(), f.blockSize);
      }
    }
  }

  /** Below address 2^32 the cache's array and the plain one cannot be told apart. */
  lemma StepIsPlain(f: Flat, op: Op, resp: Response)
    requires f.blockSize > 0 && f.cut && WholeBlocks(|f.bytes|, f.blockSize) && Below(f, op)
    ensures FlatAllows(f, op, resp) <==> FlatAllows(Plain(f), op, resp)
    ensures FlatAllows(f, op, resp) ==> FlatNext(Plain(f), op, resp) == Plain(FlatNext(f, op, resp))
    ensures FlatAnswer(f, op) == FlatAnswer(Plain(f), op)
  {
    hide BlockStart, BlockOf, OffsetIn, Place, Reachable, WholeBlocks, BlocksBelow, Covers, Holds, Stored,
         Reach, Peek;
    BlockFacts(f.RawIdx(), f.blockSize);
    BelowBlocks(f, op);
    ReachIsPlain(f, Span(f, op));
    if resp.Moved? && |resp.data| <= Span(f, op) {
      HeldIsPlain(f, Span(f, op), resp.data);
    }
    if resp.Moved? && op.WriteOp? && resp.data <= op.bytes {
      BelowBlocks(f, WriteOp(resp.data));
      StoredIsPlain(f, resp.data);
    }
  }

  /** Every operation of the run addresses bytes below 2^32 only. */
  predicate BelowAlong(f: Flat, ops: seq<Op>, rs: seq<Response>)
    requires f.blockSize > 0 && |rs| == |ops|
    decreases |ops|
  {
    ops == [] || (Below(f, ops[0]) && BelowAlong(FlatNext(f, ops[0], rs[0]), ops[1..], rs[1..]))
  }

  lemma {:induction false} RunIsPlain(f: Flat, ops: seq<Op>, rs: seq<Response>)
    requires f.blockSize > 0 && f.cut && WholeBlocks(|f.bytes|, f.blockSize)
    requires |rs| == |ops| && FlatAllowsRun(f, ops, rs) && BelowAlong(f, ops, rs)
    ensures FlatAllowsRun(Plain(f), ops, rs)
    ensures FlatRun(Plain(f), ops, rs) == Plain(FlatRun(f, ops, rs))
    ensures rs == FlatAnswers(f, ops) ==> rs == FlatAnswers(Plain(f), ops)
    decreases |ops|
  {
    hide FlatAllows, FlatNext, FlatAnswer, WholeBlocks, Below;
    if ops == [] {
    } else {
      StepIsPlain(f, ops[0], rs[0]);
      RunIsPlain(FlatNext(f, ops[0], rs[0]), ops[1..], rs[1..]);
    }
  }

  /**
   A run that addresses bytes below 2^32 only is a run of a plain byte array with a
   cursor, and on a device that does not fail gives exactly its answers.
   */
  lemma PlainTrace(s: State, o: Oracle, ops: seq<Op>)
    requires s.Coherent() && AllowedRun(s, o, ops)
    requires Unharmed(o, s.disk, Run(s, o, ops).state.disk)
    requires BelowAlong(Abs(s), ops, Run(s, o, ops).responses)
    ensures var r := Run(s, o, ops);
            var flat := Flat(s.Image(), s.disk.blockSize, s.start, s.idx, false);
            && r.state.Coherent()
            && FlatAllowsRun(flat, ops, r.responses)
            && FlatRun(flat, ops, r.responses).bytes == r.state.Image()
            && (AllDone(o, s.disk, r.state.disk) ==> r.responses == FlatAnswers(flat, ops))
  {
    hide Run, FlatAllowsRun, FlatRun, FlatAnswers, BelowAlong, NoFill, NoDrain, AllDone, State.Image;
    CoherentIsShaped(s);
    TraceRefinement(s, o, ops);
    RunIsPlain(Abs(s), ops, Run(s, o, ops).responses);
    if AllDone(o, s.disk, Run(s, o, ops).state.disk) {
      TraceExact(s, o, ops);
    }
  }

  /** A read below address 2^32 is a read of a slice of the view. */
  lemma PlainRead(s: State, o: Oracle, n: nat)
    requires s.Coherent() && NoFill(o, s.disk, Read(s, o, n).state.disk) && Below(Abs(s), ReadOp(n))
    ensures var r := Read(s, o, n);
            && Carries(o, s, r.state, s.Image(), r.ok)
            && r.state.idx == s.idx + |r.data|
            && (r.data == [] || (s.RawIdx() + |r.data| <= |s.Image()|
                                 && r.data == s.Image()[s.RawIdx()..s.RawIdx() + |r.data|]))
            && (r.ok <==> |r.data| == n)
            && (!r.ok && AllDone(o, s.disk, r.state.disk) ==> s.RawIdx() + |r.data| >= |s.Image()|)
  {
    hide Read, State.Image, State.Coherent, AllDone, NoFill, NoDrain, Holds, Place, Reachable, Later, BlockOf,
         OffsetIn;
    CoherentIsShaped(s);
    ReadRefines(s, o, n);
    var f, data := Abs(s), Read(s, o, n).data;
    BelowBlocks(f, ReadOp(n));
    HeldIsPlain(f, n, data);
    PlainHolds(Plain(f), data);
    if |data| < n {
      PlaceIsPlain(f, n, s.RawIdx() + |data|);
    }
  }

  lemma CoversPlain(g: Flat, n: nat)
    requires g.blockSize > 0 && !g.cut && Covers(g, n)
    ensures n == 0 || g.RawIdx() + n <= |g.bytes|
  {
    if n > 0 {
      assert g.Has(g.RawIdx() + n - 1);
    }
  }

  /** A write below address 2^32 overwrites a slice of the view. */
  lemma PlainWrite(s: State, o: Oracle, data: seq<byte>)
    requires s.Coherent() && NoFill(o, s.disk, Write(s, o, data).state.disk) && Below(Abs(s), WriteOp(data))
    ensures var r := Write(s, o, data);
            && Carries(o, s, r.state, Overwrite(s.Image(), s.RawIdx(), r.data), r.ok)
            && r.state.idx == s.idx + |r.data|
            && (r.data == [] || s.RawIdx() + |r.data| <= |s.Image()|)
            && (r.ok <==> r.data == data)
            && (!r.ok && AllDone(o, s.disk, r.state.disk) ==> s.RawIdx() + |r.data| >= |s.Image()|)
  {
    hide Write, State.Image, State.Coherent, AllDone, NoFill, NoDrain, Holds, Covers, Place, Reachable, Later,
         BlockOf, OffsetIn, Stored, Overwrite;
    CoherentIsShaped(s);
    WriteRefines(s, o, data);
    var f, r := Abs(s), Write(s, o, data);
    BelowBlocks(f, WriteOp(data));
    BelowBlocks(f, WriteOp(r.data));
    HeldIsPlain(f, |data|, r.data);
    CoversPlain(Plain(f), |r.data|);
    PlainStored(Plain(f), r.data);
    StoredIsPlain(f, r.data);
    if |r.data| < |data| {
      PlaceIsPlain(f, |data|, s.RawIdx() + |r.data|);
    }
  }

  // ---------- Exactly when a transfer is the plain one ----------

  /** The blocks of the device divide it, and 2^32. */
  predicate Aligned(f: Flat) {
    WholeBlocks(U32_LIMIT, f.blockSize) && WholeBlocks(|f.bytes|, f.blockSize)
  }

  /** The array has the byte at `x` exactly if the device has the byte at `x` modulo 2^32. */
  lemma CutAt(f: Flat, x: nat)
    requires f.blockSize > 0 && f.cut && Aligned(f)
    ensures f.PlaceOf(x) == U32(x) && (f.Has(x) <==> U32(x) < |f.bytes|)
    ensures x < U32_LIMIT ==> U32(x) == x
  {
    hide Place, Reachable, WholeBlocks;
    CutIsModulo(f, x);
  }

  lemma PlainReach(f: Flat, n: nat)
    requires f.blockSize > 0
    ensures var k := Reach(Plain(f), n);
            && k == (if f.RawIdx() + n <= |f.bytes| then n
                     else if f.RawIdx() <= |f.bytes| then |f.bytes| - f.RawIdx() else 0)
            && Covers(Plain(f), k)
  {
    hide Reach;
    var k := if f.RawIdx() + n <= |f.bytes| then n else if f.RawIdx() <= |f.bytes| then |f.bytes| - f.RawIdx() else 0;
    ReachIs(Plain(f), n, k);
  }

  /**
   What a read of `n` bytes at `x` sees modulo 2^32 is what it would see at `x`, byte for
   byte up to the end of the device, and the end itself.
   */
  predicate SeesPlain(bytes: seq<byte>, x: nat, n: nat) {
    && (forall y :: x <= y < x + n && y < |bytes| ==> bytes[U32(y)] == bytes[y])
    && (x < |bytes| < x + n ==> U32(|bytes|) >= |bytes|)
    && (|bytes| <= x && n > 0 ==> U32(x) >= |bytes|)
  }

  lemma PlainAt(g: Flat, y: nat)
    requires g.blockSize > 0 && !g.cut
    ensures g.PlaceOf(y) == y && (g.Has(y) <==> y < |g.bytes|)
  {
  }

  lemma SeenIsHeld(f: Flat, n: nat)
    requires f.blockSize > 0 && f.cut && Aligned(f) && SeesPlain(f.bytes, f.RawIdx(), n)
    ensures var k := Reach(Plain(f), n);
            && Covers(Plain(f), k) && Holds(f, Peek(Plain(f), k)) && Reach(f, n) == k
  {
    hide Reach, Place, Reachable, Aligned, U32, Flat.PlaceOf, Covers;
    var x, g := f.RawIdx(), Plain(f);
    var k := Reach(g, n);
    PlainReach(f, n);
    var data := Peek(g, k);
    forall y | x <= y < x + k
      ensures f.Has(y) && data[y - x] == f.bytes[f.PlaceOf(y)]
    {
      CutAt(f, y);
      PlainAt(g, y);
      assert g.Has(y);
    }
    if k < n {
      CutAt(f, x + k);
    }
    HoldsIsPeek(f, data);
    ReachIs(f, n, k);
  }

  lemma HeldIsSeen(f: Flat, n: nat)
    requires f.blockSize > 0 && f.cut && Aligned(f)
    requires FlatAnswer(f, ReadOp(n)) == FlatAnswer(Plain(f), ReadOp(n))
    ensures SeesPlain(f.bytes, f.RawIdx(), n)
  {
    hide Reach, Place, Reachable, Aligned, U32, Flat.PlaceOf, Covers, Flat.Has;
    var x, g := f.RawIdx(), Plain(f);
    var k := Reach(g, n);
    PlainReach(f, n);
    ReachCovers(f, n);
    var data := Peek(g, k);
    assert Peek(f, k) == data;
    forall y | x <= y < x + n && y < |f.bytes|
      ensures f.bytes[U32(y)] == f.bytes[y]
    {
      CutAt(f, y);
      PlainAt(g, y);
      assert g.Has(y) && data[y - x] == g.bytes[g.PlaceOf(y)];
      assert f.Has(y) && data[y - x] == f.bytes[f.PlaceOf(y)];
    }
    if k < n {
      CutAt(f, x + k);
    }
  }

  /** A read is answered like a plain array answers it exactly if it sees the same bytes. */
  lemma ReadPlainIff(f: Flat, n: nat)
    requires f.blockSize > 0 && f.cut && Aligned(f)
    ensures FlatAnswer(f, ReadOp(n)) == FlatAnswer(Plain(f), ReadOp(n)) <==> SeesPlain(f.bytes, f.RawIdx(), n)
  {
    hide Reach, Peek, Holds, Covers, Place, Reachable, Aligned, SeesPlain, Flat.Has, Flat.PlaceOf;
    if SeesPlain(f.bytes, f.RawIdx(), n) {
      SeenIsHeld(f, n);
      HoldsIsPeek(f, Peek(Plain(f), Reach(Plain(f), n)));
    } else if FlatAnswer(f, ReadOp(n)) == FlatAnswer(Plain(f), ReadOp(n)) {
      HeldIsSeen(f, n);
    }
  }

  /**
   The addresses of a transfer of `n` bytes at `x`, up to the first that is not on the
   device, are below 2^32, or not on the device modulo 2^32 either.
   */
  predicate Fits(total: nat, x: nat, n: nat) {
    n == 0
    || (if x >= total then U32(x) >= total
        else if x + n <= total then x + n <= U32_LIMIT
        else total < U32_LIMIT)
  }

  lemma FitsSeesPlain(bytes: seq<byte>, x: nat, n: nat)
    requires Fits(|bytes|, x, n)
    ensures SeesPlain(bytes, x, n)
  {
  }

  /** An address that does not fit, on contents that show it. */
  lemma UnfitSeen(total: nat, x: nat, n: nat) returns (bytes: seq<byte>)
    requires !Fits(total, x, n)
    ensures |bytes| == total && !SeesPlain(bytes, x, n)
  {
    var y := if x < U32_LIMIT then U32_LIMIT else x;
    bytes := seq(total, i => if i == y then 1 else 0);
    if x < total && x + n <= total {
      assert bytes[y] == 1 && bytes[U32(y)] == 0;
    }
  }

  /**
   On every content of the device a read is answered like a plain array answers it,
   exactly if its addresses fit.
   */
  lemma ReadsPlainIff(f: Flat, n: nat)
    requires f.blockSize > 0 && f.cut && Aligned(f)
    ensures Fits(|f.bytes|, f.RawIdx(), n)
       <==> forall bytes: seq<byte> :: |bytes| == |f.bytes| ==>
              FlatAnswer(f.(bytes := bytes), ReadOp(n)) == FlatAnswer(Plain(f.(bytes := bytes)), ReadOp(n))
  {
    hide FlatAnswer, SeesPlain, Fits, WholeBlocks;
    if Fits(|f.bytes|, f.RawIdx(), n) {
      forall bytes: seq<byte> | |bytes| == |f.bytes|
        ensures FlatAnswer(f.(bytes := bytes), ReadOp(n)) == FlatAnswer(Plain(f.(bytes := bytes)), ReadOp(n))
      {
        FitsSeesPlain(bytes, f.RawIdx(), n);
        ReadPlainIff(f.(bytes := bytes), n);
      }
    } else {
      var bytes := UnfitSeen(|f.bytes|, f.RawIdx(), n);
      ReadPlainIff(f.(bytes := bytes), n);
    }
  }

  /** A look at the rest of a block is a read of it: an array has all of a block, or nothing. */
  lemma FillIsRead(f: Flat, g: Flat)
    requires f.blockSize > 0 && f.cut && Aligned(f) && (g == f || g == Plain(f))
    ensures FlatAnswer(g, FillOp) == FlatAnswer(g, ReadOp(Span(g, FillOp)))
  {
    hide BlockOf, BlockStart, OffsetIn, Place, Reach, Peek, U32;
    var x, n := f.RawIdx(), Span(f, FillOp);
    BlockFacts(x, f.blockSize);
    forall y | x <= y < x + n ensures g.Has(y) <==> g.Has(x) {
      SameBlock(f.blockSize, x, y);
      BlockInside(f.bytes, f.blockSize, x);
      BlockInside(f.bytes, f.blockSize, y);
    }
    if g.Has(x) {
      ReachIs(g, n, n);
    } else {
      CoversNothing(g);
      ReachIs(g, n, 0);
    }
  }

  /** The same for a look at the rest of a block. */
  lemma FillsPlainIff(f: Flat)
    requires f.blockSize > 0 && f.cut && Aligned(f)
    ensures Fits(|f.bytes|, f.RawIdx(), Span(f, FillOp))
       <==> forall bytes: seq<byte> :: |bytes| == |f.bytes| ==>
              FlatAnswer(f.(bytes := bytes), FillOp) == FlatAnswer(Plain(f.(bytes := bytes)), FillOp)
  {
    hide FlatAnswer, Fits, WholeBlocks, OffsetIn;
    ReadsPlainIff(f, Span(f, FillOp));
    forall bytes: seq<byte> | |bytes| == |f.bytes|
      ensures var g, n := f.(bytes := bytes), Span(f, FillOp);
              && FlatAnswer(g, FillOp) == FlatAnswer(g, ReadOp(n))
              && FlatAnswer(Plain(g), FillOp) == FlatAnswer(Plain(g), ReadOp(n))
    {
      FillIsRead(f.(bytes := bytes), f.(bytes := bytes));
      FillIsRead(f.(bytes := bytes), Plain(f.(bytes := bytes)));
    }
  }

  // ---------- Where a write goes ----------

  lemma {:induction false} SameReach(f: Flat, g: Flat, n: nat)
    requires f.blockSize > 0 && g == f.(bytes := g.bytes) && |g.bytes| == |f.bytes|
    ensures Reach(f, n) == Reach(g, n)
    decreases n
  {
    hide Place, Reachable;
    if n == 0 {
    } else {
      SameReach(f.Onward(1), g.Onward(1), n - 1);
    }
  }

  /** What is stored is what there is room for. */
  lemma {:induction false} StoredReach(f: Flat, data: seq<byte>)
    requires f.blockSize > 0
    ensures Stored(f, data[..Reach(f, |data|)]) == Stored(f, data)
    decreases |data|
  {
    hide Place, Reachable;
    if data == [] || !f.Has(f.RawIdx()) {
      assert data[..0] == [];
    } else {
      var k := Reach(f.Onward(1), |data| - 1);
      SameReach(f.Onward(1), f.Put(data[0]), |data| - 1);
      StoredReach(f.Put(data[0]), data[1..]);
      assert data[..k + 1] == [data[0]] + data[1..][..k];
      StoredCons(f, data[0], data[1..][..k]);
    }
  }

  /** Every byte a write addresses at `i` is `v`, and it gets to one: `v` is what it leaves there. */
  lemma {:induction false} StoredHit(f: Flat, data: seq<byte>, i: nat, v: byte, y: nat)
    requires f.blockSize > 0 && f.cut && i < |f.bytes|
    requires f.RawIdx() <= y < f.RawIdx() + Reach(f, |data|) && Place(f.blockSize, y) == i
    requires forall z :: f.RawIdx() <= z < f.RawIdx() + |data| && Place(f.blockSize, z) == i
               ==> data[z - f.RawIdx()] == v
    ensures Stored(f, data)[i] == v
    decreases |data|
  {
    hide Place, Reachable;
    var next, rest := f.Put(data[0]), data[1..];
    SameReach(f.Onward(1), next, |rest|);
    var k := Reach(next, |rest|);
    if !Spares(f.blockSize, next.RawIdx(), k, i) {
      var z :| next.RawIdx() <= z < next.RawIdx() + k && Place(f.blockSize, z) == i;
      StoredHit(next, rest, i, v, z);
    } else {
      assert y == f.RawIdx();
      StoredReach(next, rest);
      StoredElsewhere(next, rest[..k], i);
    }
  }

  /** The cache keeps a byte at its address modulo 2^32, up to the end of its block. */
  lemma PlaceModulo(size: nat, x: nat)
    requires size > 0
    ensures U32(Place(size, x)) == U32(x)
  {
    BlockFacts(x, size);
    hide BlockOf, OffsetIn, BlockStart;
    var at := BlockStart(size, BlockOf(x, size));
    assert x == U32_LIMIT * (at / U32_LIMIT) + Place(size, x);
    ModShift(at / U32_LIMIT, Place(size, x), U32_LIMIT);
  }

  /** Bytes of `data` that the cache keeps in one place are the same. */
  predicate OneEach(size: nat, x: nat, data: seq<byte>)
    requires size > 0
  {
    forall y, z :: x <= y < x + |data| && x <= z < x + |data| && Place(size, y) == Place(size, z)
                   ==> data[y - x] == data[z - x]
  }

  lemma ShortIsOneEach(size: nat, x: nat, data: seq<byte>)
    requires size > 0 && |data| <= U32_LIMIT
    ensures OneEach(size, x, data)
  {
    hide Place;
    forall y, z | x <= y < x + |data| && x <= z < x + |data| && Place(size, y) == Place(size, z)
      ensures y == z
    {
      PlaceModulo(size, y);
      PlaceModulo(size, z);
    }
  }

  /** Data the array has room for is what it holds afterwards, exactly if no place gets two different bytes. */
  lemma StoredHeldIff(f: Flat, data: seq<byte>)
    requires f.blockSize > 0 && f.cut && Covers(f, |data|)
    ensures Holds(f.(bytes := Stored(f, data)), data) <==> OneEach(f.blockSize, f.RawIdx(), data)
  {
    hide Place, Reachable, Reach, Stored;
    var g, size, from := f.(bytes := Stored(f, data)), f.blockSize, f.RawIdx();
    ReachIs(f, |data|, |data|);
    if OneEach(size, from, data) {
      forall x | from <= x < from + |data|
        ensures g.Has(x) && data[x - from] == g.bytes[g.PlaceOf(x)]
      {
        assert f.Has(x);
        StoredHit(f, data, Place(size, x), data[x - from], x);
      }
    }
    if Holds(g, data) {
      forall y, z | from <= y < from + |data| && from <= z < from + |data| && Place(size, y) == Place(size, z)
        ensures data[y - from] == data[z - from]
      {
        assert data[y - from] == g.bytes[g.PlaceOf(y)] && data[z - from] == g.bytes[g.PlaceOf(z)];
      }
    }
  }

  /** The two sequences agree below `start`. */
  predicate SameBelow(a: seq<byte>, b: seq<byte>, start: nat) {
    |a| == |b| && forall i :: 0 <= i < start && i < |a| ==> a[i] == b[i]
  }

  /** None of the `n` bytes at `x` is below `start` modulo 2^32. */
  predicate StaysAbove(x: nat, n: nat, start: nat) {
    forall y :: x <= y < x + n ==> U32(y) >= start
  }

  /**
   A write of `n` bytes leaves the bytes in front of the partition alone, whatever the
   bytes are, exactly if none of the addresses it gets to is in front of it modulo 2^32.
   */
  lemma StoresAboveIff(f: Flat, n: nat)
    requires f.blockSize > 0 && f.cut && Aligned(f)
    ensures StaysAbove(f.RawIdx(), Reach(f, n), f.start)
       <==> forall data: seq<byte> :: |data| == n ==> SameBelow(Stored(f, data), f.bytes, f.start)
  {
    hide Place, Reachable, Reach, Stored, U32, WholeBlocks;
    var x, k := f.RawIdx(), Reach(f, n);
    ReachCovers(f, n);
    if StaysAbove(x, k, f.start) {
      forall data: seq<byte>, i | |data| == n && 0 <= i < f.start && i < |f.bytes|
        ensures Stored(f, data)[i] == f.bytes[i]
      {
        forall y | x <= y < x + k ensures Place(f.blockSize, y) != i {
          CutAt(f, y);
        }
        StoredReach(f, data);
        StoredElsewhere(f, data[..k], i);
      }
    } else {
      var y :| x <= y < x + k && U32(y) < f.start;
      var i := U32(y);
      CutAt(f, y);
      assert f.Has(y);
      var v: byte := if f.bytes[i] == 0 then 1 else 0;
      var data := seq(n, _ => v);
      StoredHit(f, data, i, v, y);
      assert Stored(f, data)[i] != f.bytes[i];
    }
  }

  lemma FitReach(f: Flat, n: nat)
    requires f.blockSize > 0 && f.cut && Aligned(f) && Fits(|f.bytes|, f.RawIdx(), n)
    ensures Reach(f, n) == Reach(Plain(f), n)
    ensures BlocksBelow(f, Reach(f, n))
  {
    hide Reach, Place, Reachable, WholeBlocks, Holds, Covers, Peek;
    FitsSeesPlain(f.bytes, f.RawIdx(), n);
    SeenIsHeld(f, n);
    PlainReach(f, n);
    BelowBlocks(f, ReadOp(Reach(f, n)));
  }

  lemma FitStored(f: Flat, data: seq<byte>)
    requires f.blockSize > 0 && f.cut && Aligned(f) && Fits(|f.bytes|, f.RawIdx(), |data|)
    ensures FlatAnswer(f, WriteOp(data)) == FlatAnswer(Plain(f), WriteOp(data))
    ensures Stored(f, data) == Stored(Plain(f), data)
  {
    hide Reach, Place, Reachable, Stored, Fits, BlocksBelow;
    FitReach(f, |data|);
    StoredReach(f, data);
    StoredReach(Plain(f), data);
    StoredIsPlain(f, data[..Reach(f, |data|)]);
  }

  /** A write that shows that its addresses do not fit. */
  lemma UnfitStored(f: Flat, n: nat) returns (data: seq<byte>)
    requires f.blockSize > 0 && f.cut && Aligned(f) && !Fits(|f.bytes|, f.RawIdx(), n)
    ensures |data| == n
    ensures FlatAnswer(f, WriteOp(data)) == FlatAnswer(Plain(f), WriteOp(data)) ==>
              Stored(f, data) != Stored(Plain(f), data)
  {
    hide Reach, Place, Reachable, WholeBlocks, Stored;
    var x, total := f.RawIdx(), |f.bytes|;
    var y := if x < U32_LIMIT then U32_LIMIT else x;
    var v: byte := if y < total && f.bytes[y] == 0 then 1 else 0;
    data := seq(n, _ => v);
    PlainReach(f, n);
    ReachCovers(f, n);
    CutAt(f, x + Reach(f, n));
    if x < total && x + n <= total {
      PlainStored(Plain(f), data);
      forall z | x <= z < x + n ensures Place(f.blockSize, z) != y {
        CutAt(f, z);
      }
      StoredElsewhere(f, data, y);
      assert Overwrite(f.bytes, x, data)[y] == v;
    }
  }

  /** A write does what it does to a plain array, whatever its bytes are, exactly if its addresses fit. */
  lemma WritesPlainIff(f: Flat, n: nat)
    requires f.blockSize > 0 && f.cut && Aligned(f)
    ensures Fits(|f.bytes|, f.RawIdx(), n)
       <==> forall data: seq<byte> :: |data| == n ==>
              && FlatAnswer(f, WriteOp(data)) == FlatAnswer(Plain(f), WriteOp(data))
              && Stored(f, data) == Stored(Plain(f), data)
  {
    hide FlatAnswer, Stored, Fits, WholeBlocks;
    if Fits(|f.bytes|, f.RawIdx(), n) {
      forall data: seq<byte> | |data| == n
        ensures FlatAnswer(f, WriteOp(data)) == FlatAnswer(Plain(f), WriteOp(data))
        ensures Stored(f, data) == Stored(Plain(f), data)
      {
        FitStored(f, data);
      }
    } else {
      var data := UnfitStored(f, n);
    }
  }

  // ---------- On the cache ----------

  ghost predicate AlignedDisk(d: Disk) {
    WholeBlocks(U32_LIMIT, d.blockSize) && d.Valid()
  }

  /** On a device that does not fail, a read of the cache is the plain one exactly if it sees the same bytes. */
  lemma CacheReadsPlainIff(s: State, o: Oracle, n: nat)
    requires s.Coherent() && AlignedDisk(s.disk) && AllDone(o, s.disk, Read(s, o, n).state.disk)
    ensures var r := Read(s, o, n);
            Moved(r.data, r.ok) == FlatAnswer(Plain(Abs(s)), ReadOp(n))
            <==> SeesPlain(s.Image(), s.RawIdx(), n)
  {
    hide Read, FlatAnswer, State.Image, State.Coherent, AllDone, NoFill, NoDrain, SeesPlain, WholeBlocks;
    CoherentIsShaped(s);
    DoneIsUnharmed(o, s.disk, Read(s, o, n).state.disk);
    StepRefines(s, o, ReadOp(n));
    ReadPlainIff(Abs(s), n);
  }

  /** On a device that does not fail, what a write leaves there once it is flushed. */
  lemma WriteFlushed(s: State, o: Oracle, data: seq<byte>)
    requires s.Coherent() && forall i :: o(i).Done?
    ensures Flush(Write(s, o, data).state, o).state.disk.bytes == Stored(Abs(s), data)
  {
    hide Write, Flush, FlatAllows, State.Image, State.Coherent, Stored, Reach, Peek;
    CoherentIsShaped(s);
    StepRefines(s, o, WriteOp(data));
    StoredReach(Abs(s), data);
    FlushKeepsView(Write(s, o, data).state, o);
  }

  /**
   On a device that does not fail, a write and a flush leave the bytes in front of the
   partition alone, whatever is written, exactly if none of the addresses the write gets
   to is in front of it modulo 2^32.
   */
  lemma WritesAboveIff(s: State, o: Oracle, n: nat)
    requires s.Coherent() && AlignedDisk(s.disk) && forall i :: o(i).Done?
    ensures StaysAbove(s.RawIdx(), Reach(Abs(s), n), s.start)
       <==> forall data: seq<byte> :: |data| == n ==>
              SameBelow(Flush(Write(s, o, data).state, o).state.disk.bytes, s.Image(), s.start)
  {
    hide Write, Flush, State.Image, State.Coherent, Stored, Reach, SameBelow, StaysAbove, WholeBlocks;
    CoherentIsShaped(s);
    StoresAboveIff(Abs(s), n);
    forall data: seq<byte> | |data| == n
      ensures Flush(Write(s, o, data).state, o).state.disk.bytes == Stored(Abs(s), data)
    {
      WriteFlushed(s, o, data);
    }
  }

  /** A byte written at an address of 2^32 or above lands at the address modulo 2^32. */
  lemma CutWrite(s: State, o: Oracle, b: byte)
    requires s.Coherent() && AlignedDisk(s.disk) && U32(s.RawIdx()) < |s.disk.bytes| && forall i :: o(i).Done?
    ensures Flush(Write(s, o, [b]).state, o).state.disk.bytes == s.Image()[U32(s.RawIdx()) := b]
  {
    hide Write, Flush, State.Image, State.Coherent, U32, WholeBlocks, Place, Reachable;
    CoherentIsShaped(s);
    var f := Abs(s);
    CutAt(f, s.RawIdx());
    WriteFlushed(s, o, [b]);
    StoredCons(f, b, []);
    StoredNothing(f.Put(b));
    assert [b] + [] == [b];
  }

  /**
   It happens: on a drive of 4 GiB and one block, with its partition at the second block,
   a write to the last block of the drive goes to the boot record.
   */
  lemma BootRecordWitness(s: State, o: Oracle, disk: Disk)
    requires disk.blockSize == 512 && |disk.bytes| == U32_LIMIT + 512 && disk.bytes[0] == 0 == disk.bytes[U32_LIMIT]
    requires s == Fresh(disk, 512).(idx := U32_LIMIT - 512) && forall i :: o(i).Done?
    ensures s.Coherent() && s.RawIdx() < |s.Image()|
    ensures var t := Flush(Write(s, o, [1]).state, o).state.disk.bytes;
            |t| == |disk.bytes| && t[0] == 1 && t[U32_LIMIT] == 0
  {
    hide Write, Flush, Place, Reachable;
    CutWrite(s, o, 1);
  }
}
