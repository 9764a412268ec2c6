/**
 What one operation of the cache does to the bytes its user sees: for every device
 no failed read of which fills the buffer, at every address.
 */
module CacheCoherence {
  import opened Bytes
  import opened BlockCache

  // ---------- How the device answered ----------

  /** The commands given between `a` and `b` all succeeded. */
  ghost predicate AllDone(o: Oracle, a: Disk, b: Disk) {
    forall i :: |a.log| <= i < |b.log| ==> o(i).Done?
  }

  /** No read given between `a` and `b` failed and filled the buffer. */
  ghost predicate NoFill(o: Oracle, a: Disk, b: Disk) {
    forall i :: |a.log| <= i < |b.log| && b.log[i].ReadBlock? ==> o(i) != Fault(true)
  }

  /** No write-back given between `a` and `b` failed and drained the buffer. */
  ghost predicate NoDrain(o: Oracle, a: Disk, b: Disk) {
    forall i :: |a.log| <= i < |b.log| && b.log[i].WriteBlock? ==> o(i) != Fault(true)
  }

  /** No fault between `a` and `b` touched the buffer. */
  ghost predicate Unharmed(o: Oracle, a: Disk, b: Disk) {
    NoFill(o, a, b) && NoDrain(o, a, b)
  }

  /** From `a` to `b` the device has been given more commands. */
  ghost predicate Later(a: Disk, b: Disk) {
    a.log <= b.log
  }

  lemma SplitAnswers(o: Oracle, a: Disk, b: Disk, c: Disk)
    requires Later(a, b) && Later(b, c)
    ensures Later(a, c)
    ensures AllDone(o, a, c) <==> AllDone(o, a, b) && AllDone(o, b, c)
    ensures NoFill(o, a, c) <==> NoFill(o, a, b) && NoFill(o, b, c)
    ensures NoDrain(o, a, c) <==> NoDrain(o, a, b) && NoDrain(o, b, c)
  {
    assert forall i :: 0 <= i < |b.log| ==> b.log[i] == c.log[i];
  }

  lemma DoneIsUnharmed(o: Oracle, a: Disk, b: Disk)
    requires AllDone(o, a, b)
    ensures Unharmed(o, a, b)
  {
  }

  /** Nothing was sent, or one command. */
  lemma OneAnswer(o: Oracle, a: Disk, b: Disk, c: Command)
    requires b.log == a.log + [c]
    ensures Later(a, b)
    ensures AllDone(o, a, b) <==> o(|a.log|).Done?
    ensures NoFill(o, a, b) <==> !(c.ReadBlock? && o(|a.log|) == Fault(true))
    ensures NoDrain(o, a, b) <==> !(c.WriteBlock? && o(|a.log|) == Fault(true))
  {
    assert b.log[|a.log|] == c;
  }

  lemma NoAnswer(o: Oracle, a: Disk, b: Disk)
    requires b.log == a.log
    ensures Later(a, b) && AllDone(o, a, b) && Unharmed(o, a, b)
  {
  }

  // ---------- What an operation does to the view ----------

  /**
   From `s` to `t` the user's bytes have become `bytes`, unless a write-back drained the
   buffer: then the operation failed, and the user sees what is on the device.
   */
  ghost predicate Carries(o: Oracle, s: State, t: State, bytes: seq<byte>, ok: bool) {
    && t.Coherent()
    && t.disk.blockSize == s.disk.blockSize
    && |t.disk.bytes| == |s.disk.bytes|
    && t.start == s.start
    && Later(s.disk, t.disk)
    && (NoDrain(o, s.disk, t.disk) ==> t.Image() == bytes && (s.Settled() ==> t.Settled()))
    && (!NoDrain(o, s.disk, t.disk) ==> !ok && t.Image() == t.disk.bytes)
  }

  /** An operation that moves no byte, after which the device holds what it did or what the user saw. */
  ghost predicate Keeps(o: Oracle, s: State, t: State, ok: bool)
    requires s.Coherent()
  {
    && Carries(o, s, t, s.Image(), ok)
    && t.idx == s.idx
    && (t.disk.bytes == s.disk.bytes || t.disk.bytes == s.Image())
  }

  lemma CursorBlock(s: State)
    requires s.disk.Valid()
    ensures s.CurBlockNumber() == BlockOf(s.RawIdx(), s.disk.blockSize)
    ensures s.CurBlockRawIdx() == BlockStart(s.disk.blockSize, s.CurBlockNumber())
    ensures s.CurBlockRawIdx() + s.OffsetFromCurBlock() == s.RawIdx()
    ensures s.OffsetFromCurBlock() == OffsetIn(s.RawIdx(), s.disk.blockSize) < s.disk.blockSize
  {
    var b := s.disk.blockSize;
    var q := BlockOf(s.RawIdx(), b);
    BlockFacts(s.RawIdx(), b);
    BlockUnique(BlockStart(b, q), b, q);
  }

  lemma DeviceAddrCut(size: nat, k: nat)
    ensures DeviceAddr(size, k) == U32(BlockStart(size, k))
  {
  }

  lemma CoherentIsShaped(s: State)
    requires s.Coherent()
    ensures s.Shaped() && s.disk.blockSize > 0
  {
  }

  /** Moving the cursor does not change the view. */
  lemma CursorKeepsView(s: State, idx: nat)
    requires s.Coherent()
    ensures var t := s.(idx := idx);
            && t.Coherent() && t.Image() == s.Image() && t.disk == s.disk && t.start == s.start
            && (t.Settled() <==> s.Settled())
  {
  }

  lemma NothingKeeps(s: State, o: Oracle)
    requires s.Coherent()
    ensures Keeps(o, s, s, true) && AllDone(o, s.disk, s.disk)
  {
  }

  /** An operation that succeeded, and then another. */
  lemma KeepsTrans(o: Oracle, s: State, m: State, t: State, ok: bool)
    requires s.Coherent() && Keeps(o, s, m, true) && Keeps(o, m, t, ok)
    ensures Keeps(o, s, t, ok)
  {
    hide State.Coherent, State.Image, NoDrain, NoFill, AllDone;
    SplitAnswers(o, s.disk, m.disk, t.disk);
  }

  /**
   A flush that succeeds puts the user's bytes on the device; one that fails leaves the
   device alone and the cache dirty. It fails exactly if the write-back does.
   */
  lemma FlushKeepsView(s: State, o: Oracle)
    requires s.Coherent()
    ensures var r := Flush(s, o);
            && Keeps(o, s, r.state, r.ok)
            && (r.ok <==> AllDone(o, s.disk, r.state.disk))
            && (r.ok ==> !r.state.dirty && r.state.disk.bytes == s.Image())
            && (!r.ok ==> r.state.dirty && r.state.disk.bytes == s.disk.bytes)
            && (!r.ok && NoDrain(o, s.disk, r.state.disk) ==> r.state.buffer == s.buffer)
  {
    hide AllDone, NoFill, NoDrain, Later, DeviceAddr, WholeBlocks;
    var r := Flush(s, o);
    if s.dirty {
      var at := s.BufferedAddr();
      OneAnswer(o, s.disk, r.state.disk, WriteBlock(at, |s.buffer|));
      PatchSlice(s.disk.bytes, at, s.buffer);
      PatchSelf(s.Image(), at, s.buffer);
    } else {
      NoAnswer(o, s.disk, r.state.disk);
      if s.buffer != [] {
        PatchSelf(s.disk.bytes, s.BufferedAddr(), s.buffer);
      }
    }
  }

  lemma EvictKeepsView(s: State, o: Oracle)
    requires s.Coherent()
    ensures var r := Evict(s, o);
            && Keeps(o, s, r.state, r.ok)
            && (r.ok <==> AllDone(o, s.disk, r.state.disk))
            && (r.ok ==> r.state.Cached() || (r.state.buffer == [] && (r.state.dirty ==> s.Stays())))
            && r.state.loaded == s.loaded
            && (s.Stays() ==> r.ok && r.state == s)
            && (r.ok && !s.Stays() ==> !r.state.dirty && r.state.disk.bytes == s.Image())
  {
    hide AllDone, NoFill, NoDrain, Later, DeviceAddr, WholeBlocks, BlockOf;
    CursorBlock(s);
    FlushKeepsView(s, o);
    if s.CurBlockNumber() == s.loaded {
      NoAnswer(o, s.disk, s.disk);
    }
  }

  /** What is handed out is the view from the cursor to the end of its block. */
  ghost predicate HandsOut(s: State, data: seq<byte>)
    requires s.Coherent()
  {
    var at := Place(s.disk.blockSize, s.RawIdx());
    && |data| == s.disk.blockSize - OffsetIn(s.RawIdx(), s.disk.blockSize)
    && at + |data| <= |s.Image()|
    && data == s.Image()[at..at + |data|]
  }

  lemma SliceHandsOut(s: State)
    requires s.Coherent() && s.Cached()
    ensures HandsOut(s, Slice(s)) && Reachable(|s.Image()|, s.disk.blockSize, s.RawIdx())
  {
    hide WholeBlocks, OffsetIn, BlockOf, BlockStart, DeviceAddr;
    CursorBlock(s);
    var at := s.BufferedAddr();
    PatchSlice(s.disk.bytes, at, s.buffer);
    assert s.buffer == s.Image()[at..at + s.disk.blockSize];
  }

  /** What a load does, for each answer of the device. */
  lemma LoadCases(s: State, o: Oracle)
    requires s.Shaped() && s.buffer == []
    ensures var r := LoadBlock(s, o);
            var k := BlockOf(s.RawIdx(), s.disk.blockSize);
            var at, end := DeviceAddr(s.disk.blockSize, k), DeviceAddr(s.disk.blockSize, k) + s.disk.blockSize;
            var logged := s.disk.(log := s.disk.log + [ReadBlock(at)]);
            var reply := o(|s.disk.log|);
            && (r.ok <==> end <= |s.disk.bytes| && reply.Done?)
            && (r.ok ==> r.state == s.(disk := logged, buffer := s.disk.bytes[at..end], loaded := k)
                         && r.data == Slice(r.state))
            && (!r.ok ==> r.state == s.(disk := logged, buffer := if end <= |s.disk.bytes| && reply == Fault(true)
                                                                  then s.disk.bytes[at..end] else []))
  {
    hide WholeBlocks, OffsetIn, BlockOf, BlockStart, DeviceAddr;
    CursorBlock(s);
    DeviceAddrCut(s.disk.blockSize, s.CurBlockNumber());
    assert [] + s.disk.bytes == s.disk.bytes;
  }

  /** A load keeps the view, and fails only for a fault or a block that is not on the device. */
  lemma LoadKeepsView(s: State, o: Oracle)
    requires s.Coherent() && s.buffer == [] && (s.dirty ==> s.Stays())
    requires NoFill(o, s.disk, LoadBlock(s, o).state.disk)
    ensures var r := LoadBlock(s, o);
            && Keeps(o, s, r.state, r.ok)
            && (r.ok <==> AllDone(o, s.disk, r.state.disk) && Reachable(|s.Image()|, s.disk.blockSize, s.RawIdx()))
            && (r.ok ==> r.state.Cached() && r.data == Slice(r.state) && r.state.dirty == s.dirty)
  {
    hide AllDone, NoFill, NoDrain, Later, DeviceAddr, WholeBlocks, OffsetIn, BlockOf, BlockStart, LoadBlock,
         Slice;
    CoherentIsShaped(s);
    LoadCases(s, o);
    var r := LoadBlock(s, o).state;
    var at := DeviceAddr(s.disk.blockSize, BlockOf(s.RawIdx(), s.disk.blockSize));
    OneAnswer(o, s.disk, r.disk, ReadBlock(at));
    if r.buffer != [] {
      PatchSelf(s.disk.bytes, at, r.buffer);
    }
  }

  lemma LoadGrows(s: State, o: Oracle)
    requires s.Shaped() && s.buffer == []
    ensures Later(s.disk, LoadBlock(s, o).state.disk)
  {
    hide WholeBlocks, OffsetIn, BlockOf, BlockStart, DeviceAddr;
  }

  /**
   `fill_buf` hands out the bytes of the view from the cursor to the end of its block,
   and fails only for a fault of the device or a block that is not on it.
   */
  lemma FillBufKeepsView(s: State, o: Oracle)
    requires s.Coherent() && NoFill(o, s.disk, FillBuf(s, o).state.disk)
    ensures var r := FillBuf(s, o);
            && Keeps(o, s, r.state, r.ok)
            && (r.ok <==> AllDone(o, s.disk, r.state.disk) && Reachable(|s.Image()|, s.disk.blockSize, s.RawIdx()))
            && (r.ok ==> r.state.Cached() && HandsOut(s, r.data) && r.state.dirty == (s.dirty && s.Stays()))
  {
    hide Evict, LoadBlock, Slice, State.Coherent, State.Image, Reachable, State.Settled, WholeBlocks, OffsetIn,
         BlockOf, BlockStart, Place, AllDone, NoFill, NoDrain, Later;
    CoherentIsShaped(s);
    EvictKeepsView(s, o);
    var e, r := Evict(s, o), FillBuf(s, o);
    if e.ok {
      if e.state.buffer == [] {
        LoadGrows(e.state, o);
        SplitAnswers(o, s.disk, e.state.disk, r.state.disk);
        LoadKeepsView(e.state, o);
        KeepsTrans(o, s, e.state, r.state, r.ok);
      } else {
        assert Reachable(|s.Image()|, s.disk.blockSize, s.RawIdx()) by {
          SliceHandsOut(e.state);
        }
      }
      if r.ok {
        SliceHandsOut(r.state);
      }
    }
  }

  /** Storing a byte in the buffer changes the view under the cursor and nowhere else. */
  lemma PutByteChangesOne(s: State, b: byte)
    requires s.Coherent() && s.Cached()
    ensures var t := PutByte(s, b);
            var at := Place(s.disk.blockSize, s.RawIdx());
            && t.Coherent() && t.Cached()
            && at < |s.Image()|
            && t.Image() == s.Image()[at := b]
            && t.disk == s.disk
            && (t.dirty <==> s.dirty || s.Image()[at] != b)
  {
    hide WholeBlocks, OffsetIn, BlockOf, BlockStart, DeviceAddr;
    CursorBlock(s);
    var at := s.BufferedAddr();
    PatchAt(s.disk.bytes, at, s.buffer);
    var t := PutByte(s, b);
    PatchAt(t.disk.bytes, at, t.buffer);
    assert t.Image() == s.Image()[Place(s.disk.blockSize, s.RawIdx()) := b];
  }
}
