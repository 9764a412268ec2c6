/** What faults that touch the buffer do to the cache, and exactly when they do harm. */
module CacheFaults {
  import opened Bytes
  import opened BlockCache
  import opened CacheCoherence
  import opened FlatArray
  import opened CacheRefinement

  // ---------- A write-back that fails and drains the buffer ----------

  /** The flush fails and drains the buffer. */
  ghost predicate Drains(s: State, o: Oracle) {
    s.dirty && o(|s.disk.log|) == Fault(true)
  }

  /** What a write-back leaves that failed and drained the buffer: dirty, with nothing to store. */
  ghost predicate Lost(s: State) {
    s.Coherent() && s.dirty && s.buffer == []
  }

  /**
   A flush keeps what is dirty in the buffer exactly if it does not fail and drain it; the
   user's bytes it keeps also if they are on the device already.
   */
  lemma FlushKeepsIff(s: State, o: Oracle)
    requires s.Coherent() && s.Settled()
    ensures var t := Flush(s, o).state;
            && t.Coherent()
            && (t.Settled() <==> !Drains(s, o))
            && (t.Image() == s.Image() <==> !Drains(s, o) || s.disk.bytes == s.Image())
  {
    FlushKeepsView(s, o);
    if s.dirty {
      OneAnswer(o, s.disk, Flush(s, o).state.disk, WriteBlock(s.BufferedAddr(), |s.buffer|));
    }
  }

  /**
   A flush that failed can be retried. The retry returns `Ok` exactly if the device takes
   the write, and then the device holds the user's bytes exactly if the first attempt left
   the buffer alone, or the bytes were on the device already: after a drained buffer the
   retry is a write of nothing, which stores nothing if the device accepts it.
   */
  lemma RetriedFlushStoresIff(s: State, o: Oracle)
    requires s.Coherent() && s.dirty && o(|s.disk.log|).Fault?
    ensures var first := Flush(s, o);
            var retry := Flush(first.state, o);
            && !first.ok
            && (retry.ok <==> o(|s.disk.log| + 1).Done?)
            && (retry.ok ==> !retry.state.dirty
                             && (retry.state.disk.bytes == s.Image()
                                 <==> o(|s.disk.log|) == Fault(false) || s.disk.bytes == s.Image()))
            && (o(|s.disk.log|) == Fault(true) ==>
                  Lost(first.state) && retry.state.disk.bytes == s.disk.bytes && (!retry.ok ==> Lost(retry.state)))
  {
    hide DeviceAddr, WholeBlocks;
    var first := Flush(s, o).state;
    assert first.disk.log == s.disk.log + [WriteBlock(s.BufferedAddr(), |s.buffer|)];
    if o(|s.disk.log|) == Fault(true) {
      assert Flush(first, o).state.disk.bytes == s.disk.bytes;
    }
  }

  lemma SliceIs(s: State)
    requires s.Shaped() && s.buffer != []
    ensures OffsetIn(s.RawIdx(), s.disk.blockSize) < |s.buffer|
    ensures Slice(s) == s.buffer[OffsetIn(s.RawIdx(), s.disk.blockSize)..]
  {
    CursorBlock(s);
  }

  /**
   After such a fault the block reads as it is on the device: what the user wrote to it
   since it was loaded is gone.
   */
  lemma DrainedFaultLosesWrites(s: State, o: Oracle)
    requires s.Coherent() && s.dirty && s.Cached()
    requires Drains(s, o) && o(|s.disk.log| + 1).Done?
    ensures var again := FillBuf(Flush(s, o).state, o);
            var at := Place(s.disk.blockSize, s.RawIdx());
            var end := s.BufferedAddr() + s.disk.blockSize;
            && again.ok
            && at < end <= |s.disk.bytes|
            && again.data == s.disk.bytes[at..end]
  {
    hide BlockOf, OffsetIn, BlockStart, WholeBlocks, DeviceAddr, LoadBlock, Slice;
    CursorBlock(s);
    var t := Flush(s, o).state;
    assert t.disk.log == s.disk.log + [WriteBlock(s.BufferedAddr(), |s.buffer|)];
    CursorBlock(t);
    LoadCases(t, o);
    SliceIs(LoadBlock(t, o).state);
  }

  // ---------- A device that refuses a write of nothing ----------

  /** The writes of nothing between `a` and `b` were refused. */
  ghost predicate RefusesNothing(o: Oracle, a: Disk, b: Disk) {
    forall i :: |a.log| <= i < |b.log| && b.log[i].WriteBlock? && b.log[i].size == 0 ==> o(i).Fault?
  }

  lemma RefusesSplit(o: Oracle, a: Disk, b: Disk, c: Disk)
    requires Later(a, b) && Later(b, c) && RefusesNothing(o, a, c)
    ensures RefusesNothing(o, a, b) && RefusesNothing(o, b, c)
  {
    assert forall i :: 0 <= i < |b.log| ==> b.log[i] == c.log[i];
  }

  /** The cache as it was, but for a write of nothing the device was sent. */
  function AskedAgain(s: State): State {
    s.(disk := s.disk.(log := s.disk.log + [WriteBlock(s.BufferedAddr(), 0)]))
  }

  lemma LostFlush(s: State, o: Oracle)
    requires Lost(s)
    ensures o(|s.disk.log|).Fault? ==> Flush(s, o) == Outcome(AskedAgain(s), [], false)
    ensures Later(s.disk, Flush(s, o).state.disk)
    ensures Flush(s, o).state.disk.log[|s.disk.log|..] == [WriteBlock(s.BufferedAddr(), 0)]
  {
    hide DeviceAddr, WholeBlocks;
  }

  lemma LostRefused(s: State, o: Oracle, t: State)
    requires Lost(s) && Later(Flush(s, o).state.disk, t.disk) && RefusesNothing(o, s.disk, t.disk)
    ensures o(|s.disk.log|).Fault?
  {
    hide DeviceAddr, WholeBlocks, Flush, State.Coherent;
    CoherentIsShaped(s);
    LostFlush(s, o);
    var log := Flush(s, o).state.disk.log;
    assert log[|s.disk.log|] == log[|s.disk.log|..][0];
    assert t.disk.log[|s.disk.log|] == log[|s.disk.log|];
  }

  /** Outside its block a lost cache fails as long as the write of nothing is refused. */
  lemma LostFillAway(s: State, o: Oracle)
    requires Lost(s) && !s.Stays() && o(|s.disk.log|).Fault?
    ensures FillBuf(s, o) == Outcome(AskedAgain(s), [], false)
  {
    hide Flush, BlockOf, OffsetIn, BlockStart, WholeBlocks, DeviceAddr;
    CursorBlock(s);
    LostFlush(s, o);
  }

  /**
   Back in its block a lost cache loads it, and is settled: the user sees the device again,
   and what was written to the block since it was loaded is gone.
   */
  lemma LostFillBack(s: State, o: Oracle)
    requires Lost(s) && s.Stays()
    ensures var f := FillBuf(s, o);
            && f.state.Coherent() && f.state.disk.bytes == s.disk.bytes && f.state.Image() == s.disk.bytes
            && (f.ok <==> o(|s.disk.log|).Done?)
            && (f.state.Settled() <==> o(|s.disk.log|) != Fault(false))
            && (f.ok ==> f.state.Cached())
  {
    hide BlockOf, OffsetIn, BlockStart, DeviceAddr, LoadBlock, Slice;
    CursorBlock(s);
    LoadCases(s, o);
    var f := FillBuf(s, o).state;
    if f.buffer != [] {
      PatchSelf(s.disk.bytes, f.BufferedAddr(), f.buffer);
    }
  }

  /** The operation moves bytes, or is to save them. */
  predicate Transfers(op: Op) {
    match op
    case ReadOp(n) => n > 0
    case WriteOp(bytes) => bytes != []
    case FillOp => true
    case FlushOp => true
    case SeekOp(_) => false
    case ConsumeOp(_) => false
  }

  /** No operation of the run touches the block loaded last. */
  predicate AwayAlong(s: State, o: Oracle, ops: seq<Op>)
    requires s.Shaped() && AllowedRun(s, o, ops)
    decreases |ops|
  {
    ops == []
    || ((Transfers(ops[0]) && !ops[0].FlushOp? ==> !s.Stays())
        && AwayAlong(Step(s, o, ops[0]).state, o, ops[1..]))
  }

  lemma AskedAgainIsLost(s: State)
    requires Lost(s)
    ensures Lost(AskedAgain(s)) && AskedAgain(s).Image() == s.Image() == s.disk.bytes
  {
  }

  lemma AskedAgainKeeps(s: State)
    ensures var t := AskedAgain(s);
            t.disk.bytes == s.disk.bytes && t.loaded == s.loaded && t.idx == s.idx && t.start == s.start
  {
  }

  lemma LaterTrans(a: Disk, b: Disk, c: Disk)
    requires Later(a, b) && Later(b, c)
    ensures Later(a, c)
  {
  }

  lemma LaterSelf(a: Disk)
    ensures Later(a, a)
  {
  }

  /** The first command of an operation that leaves the block is the write-back. */
  lemma LostFillSends(s: State, o: Oracle)
    requires Lost(s) && !s.Stays()
    ensures Later(Flush(s, o).state.disk, FillBuf(s, o).state.disk)
  {
    hide Flush, LoadBlock, BlockOf, OffsetIn, BlockStart, WholeBlocks, DeviceAddr, Later;
    CursorBlock(s);
    var e := Evict(s, o);
    LaterSelf(Flush(s, o).state.disk);
    if e.ok {
      LoadGrows(e.state, o);
    }
  }

  lemma LostSends(s: State, o: Oracle, op: Op)
    requires Lost(s) && Allowed(s, op) && Transfers(op) && (!op.FlushOp? ==> !s.Stays())
    ensures Later(Flush(s, o).state.disk, Step(s, o, op).state.disk)
  {
    hide Flush, FillBuf, State.Coherent, BlockOf, Later, PutByte;
    CoherentIsShaped(s);
    LaterSelf(Flush(s, o).state.disk);
    if !op.FlushOp? {
      LostFillSends(s, o);
      var f := FillBuf(s, o);
      match op
      case ReadOp(n) =>
        if f.ok {
          ReadGrows(Consume(f.state, 1), o, n - 1);
          LaterTrans(Flush(s, o).state.disk, f.state.disk, Step(s, o, op).state.disk);
        }
      case WriteOp(bytes) =>
        if f.ok {
          PutByteKeepsDisk(f.state, bytes[0]);
          WriteGrows(Consume(PutByte(f.state, bytes[0]), 1), o, bytes[1..]);
          LaterTrans(Flush(s, o).state.disk, f.state.disk, Step(s, o, op).state.disk);
        }
      case _ =>
    }
  }

  lemma LostStep(s: State, o: Oracle, op: Op)
    requires Lost(s) && Allowed(s, op) && (Transfers(op) && !op.FlushOp? ==> !s.Stays())
    requires RefusesNothing(o, s.disk, Step(s, o, op).state.disk)
    ensures var r := Step(s, o, op);
            && Lost(r.state) && r.state.disk.bytes == s.disk.bytes && r.state.loaded == s.loaded
            && (Transfers(op) ==> r.response == Moved([], false))
  {
    hide Flush, FillBuf, State.Coherent, State.Image, AskedAgain, BlockOf;
    CoherentIsShaped(s);
    var t := Step(s, o, op).state;
    if Transfers(op) {
      LostSends(s, o, op);
      LostRefused(s, o, t);
      LostFlush(s, o);
      AskedAgainIsLost(s);
      AskedAgainKeeps(s);
      if !op.FlushOp? {
        LostFillAway(s, o);
      }
    } else {
      CursorKeepsView(s, t.idx);
    }
  }

  /** Every operation of the run that was to move or save bytes failed, and moved none. */
  predicate AllFailed(ops: seq<Op>, rs: seq<Response>)
    requires |rs| == |ops|
  {
    forall i :: 0 <= i < |ops| && Transfers(ops[i]) ==> rs[i] == Moved([], false)
  }

  /**
   On a device that refuses a write of nothing, a cache that lost a block answers `Err` to
   every flush and to everything that leaves the block, and changes nothing on the device,
   along every run until the block is loaded again.
   */
  lemma {:induction false} LostUntilBack(s: State, o: Oracle, ops: seq<Op>)
    requires Lost(s) && AllowedRun(s, o, ops) && AwayAlong(s, o, ops)
    requires RefusesNothing(o, s.disk, Run(s, o, ops).state.disk)
    ensures var r := Run(s, o, ops);
            && Lost(r.state) && r.state.disk.bytes == s.disk.bytes && r.state.loaded == s.loaded
            && AllFailed(ops, r.responses)
    decreases |ops|
  {
    hide Step, State.Coherent, RefusesNothing, Later, Transfers, State.Stays;
    CoherentIsShaped(s);
    if ops == [] {
    } else {
      var first, r := Step(s, o, ops[0]), Run(s, o, ops);
      var rest := Run(first.state, o, ops[1..]);
      StepGrows(s, o, ops[0]);
      RunGrows(first.state, o, ops[1..]);
      RefusesSplit(o, s.disk, first.state.disk, r.state.disk);
      LostStep(s, o, ops[0]);
      LostUntilBack(first.state, o, ops[1..]);
      forall i | 0 <= i < |ops| && Transfers(ops[i])
        ensures r.responses[i] == Moved([], false)
      {
        if i > 0 {
          assert ops[i] == ops[1..][i - 1] && r.responses[i] == rest.responses[i - 1];
        }
      }
    }
  }

  // ---------- A read that fails and fills the buffer ----------

  /** The read of this `fill_buf` fails and fills the buffer. */
  ghost predicate Misfiles(s: State, o: Oracle)
    requires s.Shaped()
  {
    var e := Evict(s, o);
    && e.ok && e.state.buffer == []
    && Reachable(|s.disk.bytes|, s.disk.blockSize, s.RawIdx())
    && o(|e.state.disk.log|) == Fault(true)
  }

  /** Block `k` of a device, from offset `from` on. */
  function Tail(bytes: seq<byte>, size: nat, k: nat, from: nat): seq<byte>
    requires from <= size && DeviceAddr(size, k) + size <= |bytes|
  {
    bytes[DeviceAddr(size, k) + from..DeviceAddr(size, k) + size]
  }

  /** The blocks with the numbers `k` and `l` are on the device and hold the same bytes from `from` on. */
  predicate SameTail(bytes: seq<byte>, size: nat, k: nat, l: nat, from: nat) {
    && from <= size
    && DeviceAddr(size, k) + size <= |bytes|
    && DeviceAddr(size, l) + size <= |bytes|
    && Tail(bytes, size, k, from) == Tail(bytes, size, l, from)
  }

  lemma EmptyIsDevice(s: State)
    requires s.Coherent() && s.buffer == []
    ensures s.Image() == s.disk.bytes
  {
  }

  /** What a misfiling `fill_buf` leaves: the block of the cursor under the number of another. */
  lemma MisfiledState(s: State, o: Oracle)
    requires s.Coherent() && Misfiles(s, o)
    ensures var t := FillBuf(s, o).state;
            var k := BlockOf(s.RawIdx(), s.disk.blockSize);
            && !FillBuf(s, o).ok
            && t.disk.bytes == Evict(s, o).state.disk.bytes == s.Image()
            && t.loaded == s.loaded && t.start == s.start && t.disk.blockSize == s.disk.blockSize
            && t.dirty == (s.dirty && s.Stays())
            && DeviceAddr(s.disk.blockSize, k) + s.disk.blockSize <= |s.Image()|
            && t.buffer == Tail(s.Image(), s.disk.blockSize, k, 0)
  {
    hide BlockOf, OffsetIn, BlockStart, WholeBlocks, DeviceAddr, LoadBlock, Slice, Flush, State.Image,
         State.Coherent;
    CoherentIsShaped(s);
    EvictKeepsView(s, o);
    var e := Evict(s, o).state;
    LoadCases(e, o);
    EmptyIsDevice(e);
  }

  lemma TailPatched(t: State, bytes: seq<byte>)
    requires t.Coherent() && t.disk.bytes == bytes && t.buffer != []
    requires t.buffer == bytes[t.BufferedAddr()..t.BufferedAddr() + t.disk.blockSize]
    ensures t.Image() == bytes
  {
    PatchSelf(bytes, t.BufferedAddr(), t.buffer);
  }

  lemma MisfiledCoherent(s: State, t: State)
    requires s.Coherent() && t.disk.Valid() && t.disk.bytes == s.Image() && t.disk.blockSize == s.disk.blockSize
    requires t.loaded == s.loaded && t.dirty == (s.dirty && s.Stays())
    requires var k := BlockOf(s.RawIdx(), s.disk.blockSize);
             && DeviceAddr(s.disk.blockSize, k) + s.disk.blockSize <= |s.Image()|
             && t.buffer == Tail(s.Image(), s.disk.blockSize, k, 0)
    ensures t.Coherent()
       <==> s.Stays() || SameTail(s.Image(), s.disk.blockSize, s.loaded, BlockOf(s.RawIdx(), s.disk.blockSize), 0)
    ensures t.Coherent() ==> t.Image() == s.Image()
  {
    hide BlockOf, OffsetIn, BlockStart, WholeBlocks, DeviceAddr, State.Image;
    CoherentIsShaped(s);
    if t.Coherent() {
      TailPatched(t, s.Image());
    }
  }

  lemma EvictKeepsIff(s: State, o: Oracle)
    requires s.Coherent()
    ensures var e := Evict(s, o);
            && e.state.Coherent()
            && (e.ok ==> s.Stays() || !Drains(s, o))
            && (e.state.Image() == s.Image() <==> s.Stays() || !Drains(s, o) || s.disk.bytes == s.Image())
  {
    hide DeviceAddr, BlockOf, WholeBlocks, State.Image;
    CursorBlock(s);
    EvictKeepsView(s, o);
    if s.dirty && !s.Stays() {
      OneAnswer(o, s.disk, Flush(s, o).state.disk, WriteBlock(s.BufferedAddr(), |s.buffer|));
      FlushKeepsView(s, o);
    } else if !s.Stays() {
      NoAnswer(o, s.disk, Flush(s, o).state.disk);
    }
  }

  lemma LoadKeepsUnlessFilled(s: State, o: Oracle)
    requires s.Coherent() && s.buffer == [] && (s.dirty ==> s.Stays())
    requires !(Reachable(|s.disk.bytes|, s.disk.blockSize, s.RawIdx()) && o(|s.disk.log|) == Fault(true))
    ensures LoadBlock(s, o).state.Coherent() && LoadBlock(s, o).state.Image() == s.Image()
  {
    hide DeviceAddr, BlockOf, LoadBlock, Slice;
    CursorBlock(s);
    LoadCases(s, o);
    var r := LoadBlock(s, o);
    if r.ok {
      PatchSelf(s.disk.bytes, r.state.BufferedAddr(), r.state.buffer);
    }
  }

  lemma FillUnlessMisfiled(s: State, o: Oracle)
    requires s.Coherent() && !Misfiles(s, o)
    ensures FillBuf(s, o).state.Coherent() && FillBuf(s, o).state.Image() == Evict(s, o).state.Image()
  {
    hide BlockOf, OffsetIn, BlockStart, WholeBlocks, DeviceAddr, Slice, LoadBlock, Evict, State.Image,
         State.Coherent;
    CoherentIsShaped(s);
    EvictKeepsView(s, o);
    var e := Evict(s, o);
    if e.ok && e.state.buffer == [] {
      LoadKeepsUnlessFilled(e.state, o);
    }
  }

  /**
   `fill_buf` leaves the cache coherent exactly if its read did not fail and fill the
   buffer, or did so for the block loaded last or for one with the same bytes. A coherent
   result shows the user's bytes exactly if no write-back failed and drained the
   buffer, or they were on the device already.
   */
  lemma FillCoherentIff(s: State, o: Oracle)
    requires s.Coherent()
    ensures var t := FillBuf(s, o).state;
            var size := s.disk.blockSize;
            && (t.Coherent() <==> !Misfiles(s, o) || s.Stays()
                                  || SameTail(s.Image(), size, s.loaded, BlockOf(s.RawIdx(), size), 0))
            && (t.Coherent() ==> (t.Image() == s.Image()
                                  <==> s.Stays() || !Drains(s, o) || s.disk.bytes == s.Image()))
  {
    hide BlockOf, OffsetIn, BlockStart, DeviceAddr, FillBuf, Evict, State.Image, State.Coherent, SameTail,
         Drains;
    CoherentIsShaped(s);
    EvictKeepsIff(s, o);
    if Misfiles(s, o) {
      MisfiledState(s, o);
      MisfiledCoherent(s, FillBuf(s, o).state);
    } else {
      FillUnlessMisfiled(s, o);
    }
  }

  /** The answer of the array to a look at the rest of block `k`. */
  lemma FillAnswerIs(f: Flat, k: nat)
    requires f.blockSize > 0 && f.cut && k == BlockOf(f.RawIdx(), f.blockSize)
    ensures var from := OffsetIn(f.RawIdx(), f.blockSize);
            && from < f.blockSize
            && FlatAnswer(f, FillOp)
               == if DeviceAddr(f.blockSize, k) + f.blockSize <= |f.bytes|
                  then Moved(Tail(f.bytes, f.blockSize, k, from), true) else Moved([], false)
  {
    hide BlockOf, OffsetIn, DeviceAddr, Reach, Peek;
    var from := OffsetIn(f.RawIdx(), f.blockSize);
    var n := f.blockSize - from;
    BlockFacts(f.RawIdx(), f.blockSize);
    if DeviceAddr(f.blockSize, k) + f.blockSize <= |f.bytes| {
      var data := Tail(f.bytes, f.blockSize, k, from);
      forall x | f.RawIdx() <= x < f.RawIdx() + n
        ensures f.Has(x) && data[x - f.RawIdx()] == f.bytes[f.PlaceOf(x)]
      {
        SameBlock(f.blockSize, f.RawIdx(), x);
      }
      HoldsIsPeek(f, data);
      ReachIs(f, n, n);
    } else {
      CoversNothing(f);
      HoldsIsPeek(f, []);
      ReachIs(f, n, 0);
    }
  }

  /**
   After a read that failed and filled the buffer with another block than the one loaded
   last, a cursor in the latter is handed the rest of the former, without a command to
   the device; that is the right answer exactly if the two blocks agree from there on.
   */
  lemma MisfiledServes(s: State, o: Oracle, later: Oracle, idx: nat)
    requires s.Coherent() && Misfiles(s, o) && !s.Stays()
    requires s.(idx := idx).Stays()
    ensures var t := FillBuf(s, o).state.(idx := idx);
            var back := FillBuf(t, later);
            var size := s.disk.blockSize;
            var from, k := OffsetIn(s.start + idx, size), BlockOf(s.RawIdx(), size);
            && back.ok && back.state == t
            && from <= size && DeviceAddr(size, k) + size <= |s.Image()|
            && back.data == Tail(s.Image(), size, k, from)
            && (Moved(back.data, back.ok) == FlatAnswer(Abs(s).(idx := idx), FillOp)
                <==> SameTail(s.Image(), size, s.loaded, k, from))
  {
    hide BlockOf, OffsetIn, BlockStart, WholeBlocks, DeviceAddr, LoadBlock, Flush, State.Image, State.Coherent,
         Slice, FlatAnswer;
    CoherentIsShaped(s);
    MisfiledState(s, o);
    var t := FillBuf(s, o).state.(idx := idx);
    CursorBlock(t);
    SliceIs(t);
    FillAnswerIs(Abs(s).(idx := idx), s.loaded);
  }

  lemma WriteOne(s: State, o: Oracle, b: byte)
    requires s.Shaped() && FillBuf(s, o).ok
    ensures PutByte(FillBuf(s, o).state, b).Shaped()
    ensures Write(s, o, [b]) == Outcome(Consume(PutByte(FillBuf(s, o).state, b), 1), [b], true)
  {
    hide FillBuf, PutByte, WholeBlocks;
    ConsumeShaped(PutByte(FillBuf(s, o).state, b), 1);
    assert [b][1..] == [] && [b] + [] == [b];
  }

  lemma PutByteIs(s: State, b: byte)
    requires s.Shaped() && s.buffer != []
    ensures var k := OffsetIn(s.RawIdx(), s.disk.blockSize);
            && k < |s.buffer|
            && PutByte(s, b) == if s.buffer[k] == b then s else s.(buffer := s.buffer[k := b], dirty := true)
  {
    hide OffsetIn, BlockOf, BlockStart;
    CursorBlock(s);
  }

  /**
   A byte stored in a misfiled block and flushed overwrites the block loaded last with the
   contents of the other.
   */
  lemma MisfiledStore(s: State, o: Oracle, later: Oracle, idx: nat, b: byte)
    requires s.Coherent() && Misfiles(s, o) && !s.Stays() && s.(idx := idx).Stays()
    requires DeviceAddr(s.disk.blockSize, s.loaded) + s.disk.blockSize <= |s.Image()|
    ensures var size, k := s.disk.blockSize, BlockOf(s.RawIdx(), s.disk.blockSize);
            var t := FillBuf(s, o).state.(idx := idx);
            var w := Write(t, later, [b]);
            var flushed := Flush(w.state, later);
            && DeviceAddr(size, k) + size <= |s.Image()|
            && OffsetIn(s.start + idx, size) < size
            && var block := Tail(s.Image(), size, k, 0);
               var from := OffsetIn(s.start + idx, size);
               && w.ok
               && (b != block[from] && later(|t.disk.log|).Done? ==>
                     flushed.ok && flushed.state.disk.bytes
                                   == Patch(s.Image(), DeviceAddr(size, s.loaded), block[from := b]))
  {
    hide BlockOf, OffsetIn, BlockStart, WholeBlocks, DeviceAddr, LoadBlock, State.Image, State.Coherent, Slice,
         FlatAnswer, FillBuf, Write;
    CoherentIsShaped(s);
    MisfiledState(s, o);
    MisfiledServes(s, o, later, idx);
    var t := FillBuf(s, o).state.(idx := idx);
    WriteOne(t, later, b);
    PutByteIs(t, b);
  }

  // ---------- The two losses happen ----------

  lemma UnitBlocks(x: nat)
    ensures BlockOf(x, 1) == x && OffsetIn(x, 1) == 0 && BlockStart(1, x) == x && WholeBlocks(x, 1)
  {
  }

  lemma UnitDevice(s: State)
    requires s.disk.blockSize == 1
    ensures WholeBlocks(|s.disk.bytes|, 1) && s.disk.Valid()
    ensures s.CurBlockNumber() == s.CurBlockRawIdx() == s.RawIdx() && s.OffsetFromCurBlock() == 0
    ensures s.RawIdx() < U32_LIMIT ==> U32(s.CurBlockRawIdx()) == s.RawIdx()
    ensures s.loaded < U32_LIMIT ==> s.BufferedAddr() == s.loaded
    ensures s.Stays() <==> s.loaded == s.RawIdx()
  {
    UnitBlocks(s.RawIdx());
    UnitBlocks(s.loaded);
    UnitBlocks(|s.disk.bytes|);
  }

  lemma UnitLoad(s: State, o: Oracle)
    requires s.disk.blockSize == 1 && s.Shaped() && s.buffer == [] && s.RawIdx() < |s.disk.bytes| < U32_LIMIT
    ensures var x := s.RawIdx();
            var asked := s.disk.(log := s.disk.log + [ReadBlock(x)]);
            LoadBlock(s, o)
            == match o(|s.disk.log|)
               case Done(_) =>
                 Outcome(s.(disk := asked, buffer := [s.disk.bytes[x]], loaded := x), [s.disk.bytes[x]], true)
               case Fault(touched) =>
                 Outcome(s.(disk := asked, buffer := if touched then [s.disk.bytes[x]] else []), [], false)
  {
    hide BlockOf, OffsetIn, BlockStart, WholeBlocks, LoadBlock, Slice;
    UnitBlocks(s.RawIdx());
    LoadCases(s, o);
    var r := LoadBlock(s, o);
    if r.ok {
      SliceIs(r.state);
    }
  }

  /** What `fill_buf` does in a cache of one-byte blocks that is clean or need not be written back. */
  lemma UnitFill(s: State, o: Oracle)
    requires s.disk.blockSize == 1 && s.Shaped() && s.RawIdx() < |s.disk.bytes| < U32_LIMIT
    requires s.loaded == s.RawIdx() || !s.dirty
    ensures FillBuf(s, o) == if s.loaded == s.RawIdx() && s.buffer != [] then Outcome(s, s.buffer, true)
                             else LoadBlock(s.(buffer := []), o)
  {
    hide BlockOf, OffsetIn, BlockStart, WholeBlocks, DeviceAddr, LoadBlock, Slice, U32;
    UnitDevice(s);
    UnitBlocks(s.RawIdx());
    if s.loaded == s.RawIdx() && s.buffer != [] {
      SliceIs(s);
    }
  }

  lemma UnitWrite(s: State, o: Oracle, b: byte)
    requires s.disk.blockSize == 1 && s.Shaped() && s.RawIdx() < |s.disk.bytes| < U32_LIMIT
    requires s.buffer == [] && !s.dirty && o(|s.disk.log|).Done?
    ensures var x := s.RawIdx();
            Write(s, o, [b]) == Outcome(State(s.disk.(log := s.disk.log + [ReadBlock(x)]), [b], s.start, s.idx + 1, x,
                                              s.disk.bytes[x] != b), [b], true)
  {
    hide FillBuf, Write, LoadBlock, BlockOf, OffsetIn, BlockStart, WholeBlocks, U32, State.CurBlockRawIdx;
    UnitFill(s, o);
    UnitLoad(s, o);
    assert s.(buffer := []) == s;
    var f := FillBuf(s, o);
    UnitDevice(f.state);
    assert PutByte(f.state, b) == f.state.(buffer := [b], dirty := s.disk.bytes[s.RawIdx()] != b);
    WriteOne(s, o, b);
  }

  /** A write-back that drains the buffer. */
  lemma DrainedFlush(s: State, o: Oracle)
    requires s.Coherent() && s.dirty && o(|s.disk.log|) == Fault(true)
    ensures var asked := s.disk.(log := s.disk.log + [WriteBlock(s.BufferedAddr(), |s.buffer|)]);
            Flush(s, o) == Outcome(s.(disk := asked, buffer := []), [], false)
    ensures Lost(Flush(s, o).state)
  {
    hide DeviceAddr, WholeBlocks;
  }

  /** A write-back that drained the buffer, and a retry of it that the device accepts. */
  lemma DrainedRetry(s: State, o: Oracle)
    requires s.Coherent() && s.dirty && o(|s.disk.log|) == Fault(true) && o(|s.disk.log| + 1).Done?
    ensures var at := s.BufferedAddr();
            var first := Flush(s, o);
            && !first.ok
            && Flush(first.state, o)
               == Outcome(s.(disk := s.disk.(log := s.disk.log + [WriteBlock(at, |s.buffer|)] + [WriteBlock(at, 0)]),
                             buffer := [], dirty := false), [], true)
  {
    hide DeviceAddr, WholeBlocks;
    var at := s.BufferedAddr();
    assert Patch(s.disk.bytes, at, []) == s.disk.bytes;
  }

  /**
   The first loss happens, on a new cache over a device that accepts a write of nothing: the
   user wrote `b` over another byte, the write-back failed, its retry succeeded, and the
   other byte is what is on the device and what is read.
   */
  lemma DrainedFaultLoss(disk: Disk, o: Oracle, b: byte)
    requires disk.blockSize == 1 && 0 < |disk.bytes| < U32_LIMIT && disk.bytes[0] != b && disk.log == []
    requires o(0) == Done(true) && o(1) == Fault(true) && o(2) == Done(true) && o(3) == Done(true)
    ensures WholeBlocks(|disk.bytes|, 1)
    ensures var w := Write(Fresh(disk, 0), o, [b]);
            var first := Flush(w.state, o);
            var retry := Flush(first.state, o);
            && w.ok && w.state.Coherent() && w.state.Image() == disk.bytes[0 := b]
            && !first.ok && retry.ok && retry.state.disk.bytes == disk.bytes
            && FillBuf(retry.state.(idx := 0), o).data == [disk.bytes[0]]
  {
    hide FillBuf, LoadBlock, Write, Flush, U32, DeviceAddr, BlockOf, OffsetIn, BlockStart, WholeBlocks,
         State.CurBlockRawIdx, State.CurBlockNumber, State.OffsetFromCurBlock;
    var s := Fresh(disk, 0);
    UnitDevice(s);
    UnitWrite(s, o, b);
    var w := Write(s, o, [b]).state;
    UnitDevice(w);
    DrainedRetry(w, o);
    var t := Flush(Flush(w, o).state, o).state.(idx := 0);
    UnitDevice(t);
    UnitFill(t, o);
    UnitLoad(t, o);
    assert t.(buffer := []) == t;
  }

  lemma DrainedFaultWitness(disk: Disk, o: Oracle, seven: byte)
    requires disk == Disk(1, [1, 2], []) && seven == 7
    requires o(0) == Done(true) && o(1) == Fault(true) && o(2) == Done(true) && o(3) == Done(true)
    ensures WholeBlocks(|disk.bytes|, 1)
    ensures var w := Write(Fresh(disk, 0), o, [seven]);
            var retry := Flush(Flush(w.state, o).state, o);
            && w.ok && w.state.Coherent() && w.state.Image() == [7, 2]
            && retry.ok && retry.state.disk.bytes == [1, 2]
            && FillBuf(retry.state.(idx := 0), o).data == [1]
  {
    hide Write, Flush, FillBuf, State.Image, State.Coherent, WholeBlocks;
    DrainedFaultLoss(disk, o, seven);
  }

  /**
   On a device that refuses a write of nothing: the retry fails, so does a read of the next
   byte, and back at the first the user is handed what is on the device.
   */
  lemma RefusedRetryLoss(disk: Disk, o: Oracle, b: byte)
    requires disk.blockSize == 1 && 1 < |disk.bytes| < U32_LIMIT && disk.bytes[0] != b && disk.log == []
    requires o(0) == Done(true) && o(1) == Fault(true) && o(2) == Fault(false) && o(3) == Fault(false) && o(4).Done?
    ensures WholeBlocks(|disk.bytes|, 1)
    ensures var w := Write(Fresh(disk, 0), o, [b]).state;
            var retry := Flush(Flush(w, o).state, o);
            var away := FillBuf(retry.state.(idx := 1), o);
            && !retry.ok && !away.ok && away.data == []
            && FillBuf(away.state.(idx := 0), o).data == [disk.bytes[0]]
  {
    hide FillBuf, LoadBlock, Write, Flush, U32, DeviceAddr, BlockOf, OffsetIn, BlockStart, WholeBlocks,
         State.CurBlockRawIdx, State.CurBlockNumber, State.OffsetFromCurBlock;
    var s := Fresh(disk, 0);
    UnitDevice(s);
    UnitWrite(s, o, b);
    var w := Write(s, o, [b]).state;
    UnitDevice(w);
    DrainedFlush(w, o);
    var t := Flush(w, o).state;
    UnitDevice(t);
    LostFlush(t, o);
    AskedAgainIsLost(t);
    var away := AskedAgain(t).(idx := 1);
    UnitDevice(away);
    LostFillAway(away, o);
    AskedAgainIsLost(away);
    var back := AskedAgain(away).(idx := 0);
    UnitDevice(back);
    UnitFill(back, o);
    UnitLoad(back, o);
    assert back.(buffer := []) == back;
  }

  /**
   The second happens, on a new cache: a read of byte 1 fails, and seeking back to byte 0
   the user is handed byte 1.
   */
  lemma FilledFaultLoss(disk: Disk, o: Oracle)
    requires disk.blockSize == 1 && 1 < |disk.bytes| < U32_LIMIT && disk.log == [] && o(0) == Fault(true)
    ensures WholeBlocks(|disk.bytes|, 1)
    ensures var s := Fresh(disk, 0);
            var failed := FillBuf(s.(idx := 1), o);
            && s.Coherent() && s.Image() == disk.bytes
            && !failed.ok
            && FillBuf(failed.state.(idx := 0), o) == Outcome(failed.state.(idx := 0), [disk.bytes[1]], true)
  {
    hide FillBuf, LoadBlock, U32, DeviceAddr, BlockOf, OffsetIn, BlockStart, WholeBlocks, State.CurBlockRawIdx,
         State.CurBlockNumber, State.OffsetFromCurBlock;
    var s := Fresh(disk, 0).(idx := 1);
    UnitDevice(s);
    UnitFill(s, o);
    UnitLoad(s, o);
    assert s.(buffer := []) == s;
    var t := FillBuf(s, o).state.(idx := 0);
    UnitDevice(t);
    UnitFill(t, o);
  }

  lemma FilledFaultWitness(disk: Disk, o: Oracle)
    requires disk == Disk(1, [1, 2], []) && o(0) == Fault(true)
    ensures WholeBlocks(|disk.bytes|, 1)
    ensures FillBuf(FillBuf(Fresh(disk, 0).(idx := 1), o).state.(idx := 0), o).data == [2]
  {
    hide FillBuf, WholeBlocks;
    FilledFaultLoss(disk, o);
  }
}
