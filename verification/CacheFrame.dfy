/** What no run changes on the device, and where the device is written at all. */
module CacheFrame {
  import opened Bytes
  import opened BlockCache
  import opened CacheCoherence
  import opened FlatArray
  import opened CacheRefinement

  // ---------- Bytes that stay ----------

  /** Byte `i` of the device is `v`, for the user and on the device. */
  ghost predicate Pinned(s: State, i: nat, v: byte)
    requires s.Coherent()
  {
    i < |s.disk.bytes| && s.disk.bytes[i] == v && s.Image()[i] == v
  }

  /** None of the `n` bytes from address `x` on is kept at `i`. */
  predicate Spares(size: nat, x: nat, n: nat, i: nat)
    requires size > 0
  {
    forall y :: x <= y < x + n ==> Place(size, y) != i
  }

  lemma {:induction false} StoredElsewhere(f: Flat, data: seq<byte>, i: nat)
    requires f.blockSize > 0 && f.cut && i < |f.bytes| && Spares(f.blockSize, f.RawIdx(), |data|, i)
    ensures Stored(f, data)[i] == f.bytes[i]
    decreases |data|
  {
    hide Place, Reachable;
    if data == [] || !f.Has(f.RawIdx()) {
    } else {
      StoredElsewhere(f.Put(data[0]), data[1..], i);
    }
  }

  /**
   A write leaves every byte it does not address alone, in the view and on the device,
   also when it fails, and when it loses a block.
   */
  lemma StepPinned(s: State, o: Oracle, op: Op, i: nat, v: byte)
    requires s.Coherent() && Allowed(s, op) && NoFill(o, s.disk, Step(s, o, op).state.disk)
    requires Pinned(s, i, v)
    requires op.WriteOp? ==> Spares(s.disk.blockSize, s.RawIdx(), |op.bytes|, i)
    ensures var t := Step(s, o, op).state;
            t.Coherent() && Pinned(t, i, v) && t.start == s.start && t.disk.blockSize == s.disk.blockSize
  {
    hide Step, State.Coherent, State.Image, State.Settled, Stored, NoFill, NoDrain, AllDone, Place, Reachable;
    CoherentIsShaped(s);
    StepRefines(s, o, op);
    var f, r := Abs(s), Step(s, o, op);
    var data := Written(op, r.response);
    StoredNothing(f);
    forall k | 0 <= k <= |data|
      ensures Stored(f, data[..k])[i] == v
    {
      StoredElsewhere(f, data[..k], i);
    }
    assert data[..|data|] == data;
  }

  /** No write of the run addresses byte `i` of the device. */
  predicate SparesAlong(s: State, o: Oracle, ops: seq<Op>, i: nat)
    requires s.Shaped() && AllowedRun(s, o, ops)
    decreases |ops|
  {
    ops == []
    || ((ops[0].WriteOp? ==> Spares(s.disk.blockSize, s.RawIdx(), |ops[0].bytes|, i))
        && SparesAlong(Step(s, o, ops[0]).state, o, ops[1..], i))
  }

  /** A run leaves every byte alone that no write of it addresses, in the view and on the device. */
  lemma {:induction false} RunPinned(s: State, o: Oracle, ops: seq<Op>, i: nat, v: byte)
    requires s.Coherent() && AllowedRun(s, o, ops) && NoFill(o, s.disk, Run(s, o, ops).state.disk)
    requires Pinned(s, i, v) && SparesAlong(s, o, ops, i)
    ensures var t := Run(s, o, ops).state;
            t.Coherent() && Pinned(t, i, v)
    decreases |ops|
  {
    hide Step, State.Coherent, Pinned, NoFill, NoDrain, AllDone, Later, Spares;
    CoherentIsShaped(s);
    if ops == [] {
    } else {
      var first, r := Step(s, o, ops[0]), Run(s, o, ops);
      StepGrows(s, o, ops[0]);
      RunGrows(first.state, o, ops[1..]);
      SplitAnswers(o, s.disk, first.state.disk, r.state.disk);
      StepPinned(s, o, ops[0], i, v);
      RunPinned(first.state, o, ops[1..], i, v);
    }
  }

  /** Below address 2^32 the cache keeps a byte where it belongs. */
  lemma PlaceBelow(size: nat, x: nat)
    requires size > 0 && x < U32_LIMIT
    ensures Place(size, x) == x
  {
    BlockFacts(x, size);
  }

  /** All writes of the run end below address 2^32. */
  predicate WritesBelow(s: State, o: Oracle, ops: seq<Op>)
    requires s.Shaped() && AllowedRun(s, o, ops)
    decreases |ops|
  {
    ops == []
    || ((ops[0].WriteOp? && ops[0].bytes != [] ==> s.RawIdx() + |ops[0].bytes| <= U32_LIMIT)
        && WritesBelow(Step(s, o, ops[0]).state, o, ops[1..]))
  }

  lemma {:induction false} BelowSpares(s: State, o: Oracle, ops: seq<Op>, i: nat)
    requires s.Shaped() && AllowedRun(s, o, ops) && WritesBelow(s, o, ops) && i < s.start
    requires s.Coherent() && NoFill(o, s.disk, Run(s, o, ops).state.disk)
    ensures SparesAlong(s, o, ops, i)
    decreases |ops|
  {
    hide Step, State.Coherent, NoFill, NoDrain, AllDone, Later, Place;
    CoherentIsShaped(s);
    if ops == [] {
    } else {
      var first, r := Step(s, o, ops[0]), Run(s, o, ops);
      StepGrows(s, o, ops[0]);
      RunGrows(first.state, o, ops[1..]);
      SplitAnswers(o, s.disk, first.state.disk, r.state.disk);
      StepRefines(s, o, ops[0]);
      BelowSpares(first.state, o, ops[1..], i);
      if ops[0].WriteOp? {
        forall y | s.RawIdx() <= y < s.RawIdx() + |ops[0].bytes|
          ensures Place(s.disk.blockSize, y) != i
        {
          PlaceBelow(s.disk.blockSize, y);
        }
      }
    }
  }

  /**
   A run whose writes stay below address 2^32 changes no byte in front of the partition,
   neither in the view nor on the device, although the blocks written back may begin there.
   */
  lemma NothingBelowPartition(s: State, o: Oracle, ops: seq<Op>, i: nat, v: byte)
    requires s.Coherent() && AllowedRun(s, o, ops) && NoFill(o, s.disk, Run(s, o, ops).state.disk)
    requires WritesBelow(s, o, ops) && Pinned(s, i, v) && i < s.start
    ensures var t := Run(s, o, ops).state;
            t.Coherent() && Pinned(t, i, v)
  {
    hide Run, State.Coherent, Pinned, NoFill;
    CoherentIsShaped(s);
    BelowSpares(s, o, ops, i);
    RunPinned(s, o, ops, i, v);
  }

  // ---------- Blocks that are written ----------

  /** The address a write-back would go to. */
  function DirtyAddr(s: State): set<nat> {
    if s.dirty then {s.BufferedAddr()} else {}
  }

  /** From `s` to `t` the device was written only at addresses in `at`, and will be next. */
  ghost predicate WritesWithin(s: State, t: State, at: set<nat>) {
    && s.disk.log <= t.disk.log
    && DirtyAddr(t) <= at
    && forall i :: |s.disk.log| <= i < |t.disk.log| && t.disk.log[i].WriteBlock? ==> t.disk.log[i].addr in at
  }

  lemma WritesWithinTrans(s: State, t: State, u: State, a: set<nat>, b: set<nat>, c: set<nat>)
    requires WritesWithin(s, t, a) && WritesWithin(t, u, b) && a <= c && b <= c
    ensures WritesWithin(s, u, c)
  {
    hide DirtyAddr;
    forall i | |s.disk.log| <= i < |u.disk.log| && u.disk.log[i].WriteBlock?
      ensures u.disk.log[i].addr in c
    {
      if i < |t.disk.log| {
        assert u.disk.log[i] == t.disk.log[i];
      }
    }
  }

  lemma NothingWritten(s: State, at: set<nat>)
    requires DirtyAddr(s) <= at
    ensures WritesWithin(s, s, at)
  {
  }

  /** The address of the block under the cursor, if storing `b` changes it. */
  function ChangedAt(f: Flat, b: byte): set<nat>
    requires f.blockSize > 0 && f.Has(f.RawIdx())
  {
    if f.bytes[f.PlaceOf(f.RawIdx())] == b then {} else {DeviceAddr(f.blockSize, BlockOf(f.RawIdx(), f.blockSize))}
  }

  /** The addresses of the blocks in which storing `data` from the cursor on changes a byte. */
  function ChangedBy(f: Flat, data: seq<byte>): set<nat>
    requires f.blockSize > 0
    decreases |data|
  {
    if data == [] || !f.Has(f.RawIdx()) then {}
    else ChangedAt(f, data[0]) + ChangedBy(f.Put(data[0]), data[1..])
  }

  /** Storing what is there changes nothing. */
  lemma {:induction false} HeldChangesNothing(f: Flat, data: seq<byte>)
    requires f.blockSize > 0 && Holds(f, data)
    ensures ChangedBy(f, data) == {} && Stored(f, data) == f.bytes
    decreases |data|
  {
    hide Place, Reachable;
    if data == [] {
    } else {
      var x := f.RawIdx();
      assert f.Has(x) && data[x - f.RawIdx()] == f.bytes[f.PlaceOf(x)];
      var next := f.Put(data[0]);
      assert next.bytes == f.bytes;
      forall y | next.RawIdx() <= y < next.RawIdx() + |data[1..]|
        ensures next.Has(y) && data[1..][y - next.RawIdx()] == next.bytes[next.PlaceOf(y)]
      {
        assert f.Has(y) && data[y - f.RawIdx()] == f.bytes[f.PlaceOf(y)];
      }
      HeldChangesNothing(next, data[1..]);
    }
  }

  lemma FlushWritesWithin(s: State, o: Oracle)
    requires s.Shaped()
    ensures WritesWithin(s, Flush(s, o).state, DirtyAddr(s))
  {
  }

  lemma LoadWritesWithin(s: State, o: Oracle)
    requires s.Shaped() && s.buffer == [] && (s.dirty ==> s.Stays())
    ensures WritesWithin(s, LoadBlock(s, o).state, DirtyAddr(s))
  {
    hide OffsetIn, BlockOf, DeviceAddr, LoadBlock, Slice;
    CursorBlock(s);
    LoadCases(s, o);
  }

  lemma EvictWritesWithin(s: State, o: Oracle)
    requires s.Shaped()
    ensures WritesWithin(s, Evict(s, o).state, DirtyAddr(s))
    ensures DirtyAddr(Evict(s, o).state) <= DirtyAddr(s)
  {
    hide Flush, WholeBlocks, BlockOf, OffsetIn, BlockStart, DeviceAddr;
    FlushWritesWithin(s, o);
  }

  lemma FillWritesWithin(s: State, o: Oracle)
    requires s.Coherent()
    ensures WritesWithin(s, FillBuf(s, o).state, DirtyAddr(s))
  {
    hide WholeBlocks, BlockStart, BlockOf, OffsetIn, State.Coherent, State.Image, Flush, LoadBlock,
         WritesWithin, AllDone, NoFill, NoDrain, DeviceAddr, Slice;
    CoherentIsShaped(s);
    CursorBlock(s);
    FlushWritesWithin(s, o);
    EvictKeepsView(s, o);
    NothingWritten(s, DirtyAddr(s));
    var e := Evict(s, o);
    EvictWritesWithin(s, o);
    if e.ok && e.state.buffer == [] {
      LoadWritesWithin(e.state, o);
      WritesWithinTrans(s, e.state, LoadBlock(e.state, o).state, DirtyAddr(s), DirtyAddr(e.state), DirtyAddr(s));
    }
  }

  lemma ConsumeWritesWithin(s: State, t: State, at: set<nat>)
    requires WritesWithin(s, t, at)
    ensures WritesWithin(s, Consume(t, 1), at) && DirtyAddr(t) <= at && DirtyAddr(Consume(t, 1)) == DirtyAddr(t)
  {
  }

  lemma {:induction false} ReadWritesWithin(s: State, o: Oracle, n: nat)
    requires s.Coherent() && NoFill(o, s.disk, Read(s, o, n).state.disk)
    ensures WritesWithin(s, Read(s, o, n).state, DirtyAddr(s))
    decreases n
  {
    hide FillBuf, State.Coherent, State.Image, State.Shaped, State.Settled, State.Cached, WritesWithin, NoFill,
         NoDrain, AllDone, Later, Place, Reachable;
    CoherentIsShaped(s);
    if n == 0 {
      NothingWritten(s, DirtyAddr(s));
    } else {
      var f, r := FillBuf(s, o), Read(s, o, n);
      FillWritesWithin(s, o);
      if f.ok {
        var next := Consume(f.state, 1);
        ConsumeShaped(f.state, 1);
        FillGrows(s, o);
        ReadGrows(next, o, n - 1);
        SplitAnswers(o, s.disk, f.state.disk, r.state.disk);
        FillRefines(s, o);
        CursorKeepsView(f.state, next.idx);
        ReadWritesWithin(next, o, n - 1);
        ConsumeWritesWithin(s, f.state, DirtyAddr(s));
        WritesWithinTrans(s, next, r.state, DirtyAddr(s), DirtyAddr(next), DirtyAddr(s));
      }
    }
  }

  /** Storing a byte dirties the block under the cursor if it changes it. */
  lemma PutWritesWithin(s: State, t: State, b: byte, at: set<nat>)
    requires t.Coherent() && t.Cached() && WritesWithin(s, t, at) && Abs(t).Has(t.RawIdx())
    ensures var u := Consume(PutByte(t, b), 1);
            && WritesWithin(s, u, at + ChangedAt(Abs(t), b))
            && DirtyAddr(u) <= at + ChangedAt(Abs(t), b)
  {
    hide State.Image, BlockStart, BlockOf, OffsetIn, WholeBlocks, PutByte, DeviceAddr, Reachable;
    PutByteChangesOne(t, b);
    ConsumeWritesWithin(s, t, at);
    assert PutByte(t, b).BufferedAddr() == DeviceAddr(t.disk.blockSize, BlockOf(t.RawIdx(), t.disk.blockSize));
  }

  lemma ChangedByCons(f: Flat, b: byte, rest: seq<byte>)
    requires f.blockSize > 0 && f.Has(f.RawIdx())
    ensures ChangedBy(f, [b] + rest) == ChangedAt(f, b) + ChangedBy(f.Put(b), rest)
  {
    hide ChangedAt, Place, Reachable;
    assert ([b] + rest)[1..] == rest;
  }

  lemma WritesWithinMore(s: State, t: State, a: set<nat>, b: set<nat>)
    requires WritesWithin(s, t, a) && a <= b
    ensures WritesWithin(s, t, b)
  {
  }

  /** A write has the device written only where it was dirty before or a byte changes. */
  lemma {:induction false} WriteWritesWithin(s: State, o: Oracle, data: seq<byte>)
    requires s.Coherent() && NoFill(o, s.disk, Write(s, o, data).state.disk)
    ensures var r := Write(s, o, data);
            WritesWithin(s, r.state, DirtyAddr(s) + ChangedBy(Abs(s), r.data))
    decreases |data|
  {
    hide FillBuf, PutByte, State.Coherent, State.Image, State.Shaped, State.Settled, State.Cached,
         WritesWithin, ChangedBy, ChangedAt, DirtyAddr, NoFill, NoDrain, AllDone, Later, Place, Reachable;
    CoherentIsShaped(s);
    if data == [] {
      NothingWritten(s, DirtyAddr(s) + ChangedBy(Abs(s), []));
    } else {
      var f, r := FillBuf(s, o), Write(s, o, data);
      FillWritesWithin(s, o);
      if f.ok {
        PutByteKeepsDisk(f.state, data[0]);
        var next := Consume(PutByte(f.state, data[0]), 1);
        ConsumeShaped(PutByte(f.state, data[0]), 1);
        FillGrows(s, o);
        WriteGrows(next, o, data[1..]);
        SplitAnswers(o, s.disk, f.state.disk, r.state.disk);
        FillRefines(s, o);
        PutRefines(f.state, data[0]);
        PutWritesWithin(s, f.state, data[0], DirtyAddr(s));
        WriteWritesWithin(next, o, data[1..]);
        var rest := Write(next, o, data[1..]).data;
        ChangedByCons(Abs(s), data[0], rest);
        WritesWithinTrans(s, next, r.state, DirtyAddr(s) + ChangedAt(Abs(s), data[0]),
                          DirtyAddr(next) + ChangedBy(Abs(next), rest), DirtyAddr(s) + ChangedBy(Abs(s), r.data));
      } else {
        WritesWithinMore(s, f.state, DirtyAddr(s), DirtyAddr(s) + ChangedBy(Abs(s), []));
      }
    }
  }

  /** The blocks a step of the array changes. */
  function ChangedByStep(f: Flat, op: Op, resp: Response): set<nat>
    requires f.blockSize > 0
  {
    ChangedBy(f, Written(op, resp))
  }

  /** The blocks in which writes of the run change a byte, at the time they do. */
  function ChangedAlong(s: State, o: Oracle, ops: seq<Op>): set<nat>
    requires s.Shaped() && AllowedRun(s, o, ops)
    decreases |ops|
  {
    if ops == [] then {}
    else
      var first := Step(s, o, ops[0]);
      (if s.Coherent() then ChangedByStep(Abs(s), ops[0], first.response) else {})
      + ChangedAlong(first.state, o, ops[1..])
  }

  lemma CursorWritesNothing(s: State, idx: nat, at: set<nat>)
    requires DirtyAddr(s) <= at
    ensures WritesWithin(s, s.(idx := idx), at)
  {
  }

  lemma StepWritesWithin(s: State, o: Oracle, op: Op)
    requires s.Coherent() && Allowed(s, op) && NoFill(o, s.disk, Step(s, o, op).state.disk)
    ensures var r := Step(s, o, op);
            WritesWithin(s, r.state, DirtyAddr(s) + ChangedByStep(Abs(s), op, r.response))
  {
    hide Read, Write, FillBuf, Flush, State.Coherent, State.Image, ChangedBy, WritesWithin, DirtyAddr, NoFill;
    CoherentIsShaped(s);
    var r := Step(s, o, op);
    var all := DirtyAddr(s) + ChangedByStep(Abs(s), op, r.response);
    match op
    case ReadOp(n) =>
      ReadWritesWithin(s, o, n);
      WritesWithinMore(s, r.state, DirtyAddr(s), all);
    case WriteOp(bytes) => WriteWritesWithin(s, o, bytes);
    case FillOp =>
      FillWritesWithin(s, o);
      WritesWithinMore(s, r.state, DirtyAddr(s), all);
    case FlushOp =>
      FlushWritesWithin(s, o);
      WritesWithinMore(s, r.state, DirtyAddr(s), all);
    case SeekOp(_) => CursorWritesNothing(s, r.state.idx, all);
    case ConsumeOp(_) => CursorWritesNothing(s, r.state.idx, all);
  }

  lemma DirtyWithin(s: State, t: State, at: set<nat>)
    requires WritesWithin(s, t, at)
    ensures DirtyAddr(t) <= at
  {
  }

  /**
   Over a whole run the device is written only in blocks in which some write of the
   run changed a byte, or which were dirty before it, lost blocks or not.
   */
  lemma {:induction false} RunWritesWithin(s: State, o: Oracle, ops: seq<Op>)
    requires s.Coherent() && AllowedRun(s, o, ops) && NoFill(o, s.disk, Run(s, o, ops).state.disk)
    ensures WritesWithin(s, Run(s, o, ops).state, DirtyAddr(s) + ChangedAlong(s, o, ops))
    decreases |ops|
  {
    hide Step, State.Coherent, State.Image, State.Settled, ChangedByStep, FlatAllows, FlatNext, DirtyAddr,
         WritesWithin, NoFill, NoDrain, AllDone, Later, SavedIn;
    CoherentIsShaped(s);
    if ops == [] {
      NothingWritten(s, DirtyAddr(s) + ChangedAlong(s, o, []));
    } else {
      var first, r := Step(s, o, ops[0]), Run(s, o, ops);
      StepGrows(s, o, ops[0]);
      RunGrows(first.state, o, ops[1..]);
      SplitAnswers(o, s.disk, first.state.disk, r.state.disk);
      StepRefines(s, o, ops[0]);
      StepWritesWithin(s, o, ops[0]);
      RunWritesWithin(first.state, o, ops[1..]);
      var a := DirtyAddr(s) + ChangedByStep(Abs(s), ops[0], first.response);
      DirtyWithin(s, first.state, a);
      WritesWithinTrans(s, first.state, r.state, a, DirtyAddr(first.state) + ChangedAlong(first.state, o, ops[1..]),
                        DirtyAddr(s) + ChangedAlong(s, o, ops));
    }
  }

  /** Every write of the run writes what is there already. */
  predicate WritesSame(s: State, o: Oracle, ops: seq<Op>)
    requires s.Shaped() && AllowedRun(s, o, ops)
    decreases |ops|
  {
    ops == []
    || (var first := Step(s, o, ops[0]);
        && (s.Coherent() ==> Holds(Abs(s), Written(ops[0], first.response)))
        && WritesSame(first.state, o, ops[1..]))
  }

  lemma {:induction false} SameChangesNothing(s: State, o: Oracle, ops: seq<Op>)
    requires s.Shaped() && AllowedRun(s, o, ops) && WritesSame(s, o, ops)
    ensures ChangedAlong(s, o, ops) == {}
    decreases |ops|
  {
    hide Step, Holds, ChangedBy, State.Coherent, State.Image, WholeBlocks;
    if ops == [] {
    } else {
      var first := Step(s, o, ops[0]);
      if s.Coherent() {
        CoherentIsShaped(s);
        HeldChangesNothing(Abs(s), Written(ops[0], first.response));
      }
      SameChangesNothing(first.state, o, ops[1..]);
    }
  }

  /** From a clean state, a run of reads and of writes of what is there never writes the device. */
  lemma QuietRunWritesNothing(s: State, o: Oracle, ops: seq<Op>)
    requires s.Coherent() && AllowedRun(s, o, ops) && !s.dirty
    requires NoFill(o, s.disk, Run(s, o, ops).state.disk)
    requires WritesSame(s, o, ops)
    ensures !Run(s, o, ops).state.dirty && s.disk.log <= Run(s, o, ops).state.disk.log
    ensures forall c :: c in Run(s, o, ops).state.disk.log[|s.disk.log|..] ==> c.ReadBlock?
  {
    hide Run, WritesSame, ChangedAlong, NoFill, NoDrain, State.Coherent, State.Image;
    CoherentIsShaped(s);
    RunWritesWithin(s, o, ops);
    SameChangesNothing(s, o, ops);
    var t := Run(s, o, ops).state;
    forall c | c in t.disk.log[|s.disk.log|..]
      ensures c.ReadBlock?
    {
      var i :| 0 <= i < |t.disk.log[|s.disk.log|..]| && t.disk.log[|s.disk.log|..][i] == c;
      assert c == t.disk.log[|s.disk.log| + i];
    }
  }
}
