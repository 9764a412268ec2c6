/**
 Sector transfers on one mounted partition (`disk_read` and `disk_write` of
 src/filesystem/fatfs_raw.rs) act on exactly the device blocks they name.
 */
module Sectors {
  import opened Bytes
  import opened BlockCache
  import opened CacheCoherence
  import opened FlatArray
  import opened CacheRefinement
  import opened CacheTraffic
  import opened CacheFrame
  import opened AddressCut

  /** Where the first partition starts: a product of two 32-bit numbers, in 32 bits. */
  function PartitionOffset(lba: nat, blockSize: nat): nat {
    U32(BlockStart(blockSize, lba))
  }

  function SeekSector(s: State, sector: nat): State {
    s.(idx := BlockStart(s.disk.blockSize, sector))
  }

  function ReadSectors(s: State, o: Oracle, sector: nat, count: nat): (r: Outcome)
    requires s.Shaped()
    ensures r.state.Shaped()
  {
    Read(SeekSector(s, sector), o, BlockStart(s.disk.blockSize, count))
  }

  function WriteSectors(s: State, o: Oracle, sector: nat, data: seq<byte>): (r: Outcome)
    requires s.Shaped()
    ensures r.state.Shaped()
  {
    Write(SeekSector(s, sector), o, data)
  }

  /** The partition of `s` starts at block `lba`, and the sectors named have 32-bit addresses. */
  ghost predicate Addressable(s: State, lba: nat, sector: nat, count: nat) {
    && s.start == PartitionOffset(lba, s.disk.blockSize)
    && BlockStart(s.disk.blockSize, lba) < U32_LIMIT
    && BlockStart(s.disk.blockSize, lba + sector + count) <= U32_LIMIT
  }

  /** Block `k` of the bytes `image`. */
  function Sector(image: seq<byte>, size: nat, k: nat): seq<byte>
    requires BlockStart(size, k) + size <= |image|
  {
    image[BlockStart(size, k)..BlockStart(size, k) + size]
  }

  lemma BlockStartSum(size: nat, a: nat, b: nat)
    ensures BlockStart(size, a + b) == BlockStart(size, a) + BlockStart(size, b)
  {
  }

  /** The cursor after the seek, and the end of the transfer, are block boundaries. */
  lemma SectorBounds(s: State, lba: nat, sector: nat, count: nat)
    requires s.disk.blockSize > 0 && Addressable(s, lba, sector, count)
    ensures var t := SeekSector(s, sector);
            var n := BlockStart(s.disk.blockSize, count);
            && t.RawIdx() == BlockStart(s.disk.blockSize, lba + sector)
            && t.RawIdx() + n == BlockStart(s.disk.blockSize, lba + sector + count) <= U32_LIMIT
            && BlockOf(t.RawIdx(), s.disk.blockSize) == lba + sector
            && (count > 0 ==> n > 0 && BlockOf(t.RawIdx() + n - 1, s.disk.blockSize) == lba + sector + count - 1)
  {
    var size := s.disk.blockSize;
    BlockStartSum(size, lba, sector);
    BlockStartSum(size, lba + sector, count);
    BlockUnique(BlockStart(size, lba + sector), size, lba + sector);
    if count > 0 {
      BlockStartNext(size, lba + sector + count - 1);
      BlockUnique(BlockStart(size, lba + sector + count) - 1, size, lba + sector + count - 1);
      BlockStartMono(size, 0, count);
    }
  }

  /**
   A sector read that returns `RES_OK` has filled the whole buffer, with the bytes of the
   blocks `lba + sector` on, and has read from the device exactly those of them that
   were not in the cache. Whatever it returns, the view stays but for a lost block.
   */
  lemma ReadSectorsExact(s: State, o: Oracle, lba: nat, sector: nat, count: nat)
    requires s.Coherent() && Addressable(s, lba, sector, count) && count > 0
    requires NoFill(o, s.disk, ReadSectors(s, o, sector, count).state.disk)
    ensures var r := ReadSectors(s, o, sector, count);
            var at := BlockStart(s.disk.blockSize, lba + sector);
            var end := BlockStart(s.disk.blockSize, lba + sector + count);
            && Carries(o, s, r.state, s.Image(), r.ok)
            && (r.ok ==> at <= end <= |s.Image()| && r.data == s.Image()[at..end])
            && (r.ok ==> var cached := s.buffer != [] && s.loaded == lba + sector;
                         ReadsOf(r.state.disk.log) == ReadsOf(s.disk.log)
                           + BlockAddrs(s.disk.blockSize, lba + sector + if cached then 1 else 0, lba + sector + count))
  {
    hide Read, State.Coherent, State.Image, State.Settled, WholeBlocks, BlockOf, BlockStart, NoFill, NoDrain,
         AllDone, Later, DeviceAddr;
    CoherentIsShaped(s);
    var t := SeekSector(s, sector);
    SectorBounds(s, lba, sector, count);
    CursorKeepsView(s, t.idx);
    PlainRead(t, o, BlockStart(s.disk.blockSize, count));
    ReadTraffic(t, o, BlockStart(s.disk.blockSize, count));
  }

  /**
   A sector write that returns `RES_OK` has put all its bytes at the blocks `lba + sector`
   on; whatever it returns, the view is the old one with a prefix of the bytes there, but
   for a lost block.
   */
  lemma WriteSectorsExact(s: State, o: Oracle, lba: nat, sector: nat, count: nat, data: seq<byte>)
    requires s.Coherent() && Addressable(s, lba, sector, count)
    requires NoFill(o, s.disk, WriteSectors(s, o, sector, data).state.disk)
    requires |data| == BlockStart(s.disk.blockSize, count)
    ensures var r := WriteSectors(s, o, sector, data);
            var at := BlockStart(s.disk.blockSize, lba + sector);
            && Carries(o, s, r.state, Overwrite(s.Image(), at, r.data), r.ok)
            && r.data <= data
            && (r.ok ==> r.data == data && (data == [] || at + |data| <= |s.Image()|))
  {
    hide Write, State.Coherent, State.Image, State.Settled, WholeBlocks, BlockOf, BlockStart, Overwrite,
         NoFill, NoDrain, AllDone, Later;
    CoherentIsShaped(s);
    var t := SeekSector(s, sector);
    SectorBounds(s, lba, sector, count);
    CursorKeepsView(s, t.idx);
    PlainWrite(t, o, data);
  }

  /** A byte outside the sectors written that is the same in view and device stays so. */
  lemma WriteSectorsPinned(s: State, o: Oracle, lba: nat, sector: nat, count: nat, data: seq<byte>, i: nat, v: byte)
    requires s.Coherent() && Addressable(s, lba, sector, count)
    requires NoFill(o, s.disk, WriteSectors(s, o, sector, data).state.disk)
    requires |data| == BlockStart(s.disk.blockSize, count)
    requires Pinned(s, i, v)
    requires !(BlockStart(s.disk.blockSize, lba + sector) <= i < BlockStart(s.disk.blockSize, lba + sector + count))
    ensures var t := WriteSectors(s, o, sector, data).state;
            t.Coherent() && Pinned(t, i, v)
  {
    hide Write, State.Coherent, State.Image, WholeBlocks, BlockOf, BlockStart, NoFill, Place;
    CoherentIsShaped(s);
    var t := SeekSector(s, sector);
    SectorBounds(s, lba, sector, count);
    CursorKeepsView(s, t.idx);
    forall y | t.RawIdx() <= y < t.RawIdx() + |data|
      ensures Place(s.disk.blockSize, y) != i
    {
      PlaceBelow(s.disk.blockSize, y);
    }
    StepPinned(t, o, WriteOp(data), i, v);
  }

  lemma OverwriteOutside(bytes: seq<byte>, at: nat, data: seq<byte>, from: nat, end: nat)
    requires from <= end <= |bytes|
    requires data == [] || end <= at || at + |data| <= from
    ensures Overwrite(bytes, at, data)[from..end] == bytes[from..end]
  {
  }

  /**
   What is not written stays, for the user: in the view every other sector keeps its
   contents. On the device it may change, because its block may be written back.
   */
  lemma OtherSectorsStay(s: State, o: Oracle, lba: nat, sector: nat, count: nat, data: seq<byte>, k: nat)
    requires s.Coherent() && Addressable(s, lba, sector, count)
    requires Unharmed(o, s.disk, WriteSectors(s, o, sector, data).state.disk)
    requires |data| == BlockStart(s.disk.blockSize, count)
    requires !(lba + sector <= k < lba + sector + count)
    requires BlockStart(s.disk.blockSize, k) + s.disk.blockSize <= |s.Image()|
    ensures var t := WriteSectors(s, o, sector, data).state;
            && t.Coherent() && |t.Image()| == |s.Image()|
            && Sector(t.Image(), s.disk.blockSize, k) == Sector(s.Image(), s.disk.blockSize, k)
  {
    hide Write, WriteSectors, State.Coherent, State.Image, WholeBlocks, BlockOf, BlockStart, Overwrite, NoFill,
         NoDrain;
    CoherentIsShaped(s);
    WriteSectorsExact(s, o, lba, sector, count, data);
    var size := s.disk.blockSize;
    BlockStartSum(size, lba + sector, count);
    if k < lba + sector {
      BlockStartMono(size, k, lba + sector);
    } else if k > lba + sector + count {
      BlockStartMono(size, lba + sector + count, k);
    }
    var r := WriteSectors(s, o, sector, data);
    var at := BlockStart(size, lba + sector);
    OverwriteOutside(s.Image(), at, r.data, BlockStart(size, k), BlockStart(size, k) + size);
  }

  // ---------- Sectors at any address ----------

  /** The array with its cursor at a sector of the partition. */
  function AtSector(f: Flat, sector: nat): Flat {
    f.(idx := BlockStart(f.blockSize, sector))
  }

  /** The user sees `data` from the sector on. */
  ghost predicate Shows(s: State, sector: nat, data: seq<byte>)
    requires s.Coherent()
  {
    Holds(AtSector(Abs(s), sector), data)
  }

  /** So does the next user of the device. */
  ghost predicate Safe(s: State, sector: nat, data: seq<byte>)
    requires s.Coherent()
  {
    Shows(s, sector, data) && Holds(AtSector(Abs(s), sector).(bytes := s.disk.bytes), data)
  }

  lemma SeekShows(s: State, sector: nat)
    requires s.Coherent()
    ensures var t := SeekSector(s, sector);
            t.Coherent() && t.Shaped() && t.disk == s.disk && Abs(t) == AtSector(Abs(s), sector)
  {
    hide BlockStart;
  }

  /**
   A write that returns `RES_OK` has stored its bytes, at any address: the user sees them
   exactly if no two different ones are kept in one place.
   */
  lemma WriteShowsIff(s: State, o: Oracle, sector: nat, data: seq<byte>)
    requires s.Coherent() && WriteSectors(s, o, sector, data).ok
    ensures var t := WriteSectors(s, o, sector, data).state;
            && t.Coherent() && t.disk.blockSize == s.disk.blockSize && t.start == s.start
            && AllDone(o, s.disk, t.disk)
            && (Shows(t, sector, data)
                <==> OneEach(s.disk.blockSize, s.start + BlockStart(s.disk.blockSize, sector), data))
  {
    hide Write, State.Coherent, State.Image, State.Settled, WholeBlocks, BlockStart, Stored, Holds, Covers, NoFill,
         NoDrain, AllDone, Later, OneEach, SavedIn;
    SeekShows(s, sector);
    var at := SeekSector(s, sector);
    CoherentIsShaped(at);
    WriteOkDone(at, o, data);
    DoneIsUnharmed(o, at.disk, Write(at, o, data).state.disk);
    WriteRefines(at, o, data);
    StoredHeldIff(Abs(at), data);
  }

  /** A read that returns `RES_OK` has given what the user sees. */
  lemma ReadShows(s: State, o: Oracle, sector: nat, count: nat, data: seq<byte>)
    requires s.Coherent() && ReadSectors(s, o, sector, count).ok && |data| == BlockStart(s.disk.blockSize, count)
    ensures ReadSectors(s, o, sector, count).data == data <==> Shows(s, sector, data)
  {
    hide Read, State.Coherent, State.Image, State.Settled, WholeBlocks, BlockStart, NoFill, NoDrain, AllDone,
         Later, Place, Reachable;
    SeekShows(s, sector);
    var at, r := SeekSector(s, sector), ReadSectors(s, o, sector, count);
    CoherentIsShaped(at);
    ReadOkDone(at, o, |data|);
    DoneIsUnharmed(o, at.disk, r.state.disk);
    ReadRefines(at, o, |data|);
    var f := Abs(at);
    if Holds(f, data) {
      HoldsIsPeek(f, data);
      HoldsIsPeek(f, r.data);
    }
  }

  /** Reading back what was written gives what was written, on any device, if both return `RES_OK`. */
  lemma SectorRoundTrip(s: State, o: Oracle, sector: nat, count: nat, data: seq<byte>)
    requires s.Coherent() && |data| == BlockStart(s.disk.blockSize, count)
    ensures var w := WriteSectors(s, o, sector, data);
            var r := ReadSectors(w.state, o, sector, count);
            w.ok && r.ok ==> (r.data == data <==> OneEach(s.disk.blockSize,
                                                          s.start + BlockStart(s.disk.blockSize, sector), data))
  {
    hide ReadSectors, WriteSectors, State.Coherent, Shows, OneEach, BlockStart, AllDone;
    CoherentIsShaped(s);
    var w := WriteSectors(s, o, sector, data);
    if w.ok && ReadSectors(w.state, o, sector, count).ok {
      WriteShowsIff(s, o, sector, data);
      ReadShows(w.state, o, sector, count, data);
    }
  }

  /**
   With blocks that divide 2^32, sector `k` of a partition that starts at block `lba` is
   kept at `(lba + k) * size` modulo 2^32, wherever the partition starts and ends.
   */
  lemma SectorPlace(size: nat, lba: nat, k: nat, j: nat)
    requires WholeBlocks(U32_LIMIT, size) && j < size
    ensures Place(size, PartitionOffset(lba, size) + BlockStart(size, k) + j) == U32(BlockStart(size, lba + k)) + j
  {
    var at, offset := BlockStart(size, lba), PartitionOffset(lba, size);
    var x := offset + BlockStart(size, k);
    BlockStartSum(size, lba, k);
    assert at + BlockStart(size, k) == U32_LIMIT * (at / U32_LIMIT) + x;
    ModShift(at / U32_LIMIT, x, U32_LIMIT);
    CutBlock(at, size);
    StartsWhole(size, lba);
    ModShift(k, offset, size);
    BlockFacts(x, size);
    BlockUnique(x + j, size, BlockOf(x, size));
    BlockFacts(x + j, size);
    hide BlockOf, OffsetIn, BlockStart;
  }

  /** The user sees block `i` of `data` in sector `sector + i` of a partition that starts at block `lba`. */
  ghost predicate ShowsBlock(s: State, lba: nat, sector: nat, data: seq<byte>, i: nat)
    requires s.Coherent()
  {
    var size := s.disk.blockSize;
    var at, from := U32(BlockStart(size, lba + sector + i)), BlockStart(size, i);
    && at + size <= |s.Image()| && from + size <= |data|
    && s.Image()[at..at + size] == data[from..from + size]
  }

  lemma ShownAt(s: State, lba: nat, sector: nat, data: seq<byte>, i: nat, j: nat)
    requires s.Coherent() && AlignedDisk(s.disk) && s.start == PartitionOffset(lba, s.disk.blockSize)
    requires Shows(s, sector, data) && BlockStart(s.disk.blockSize, i) + j < |data| && j < s.disk.blockSize
    ensures var at := U32(BlockStart(s.disk.blockSize, lba + sector + i));
            at + j < |s.Image()| && s.Image()[at + j] == data[BlockStart(s.disk.blockSize, i) + j]
  {
    hide State.Coherent, State.Image, BlockStart, Place, Reachable, U32, WholeBlocks, PartitionOffset;
    CoherentIsShaped(s);
    var f := AtSector(Abs(s), sector);
    BlockStartSum(s.disk.blockSize, sector, i);
    SectorPlace(s.disk.blockSize, lba, sector + i, j);
    var x := f.RawIdx() + BlockStart(s.disk.blockSize, i) + j;
    assert f.Has(x) && data[x - f.RawIdx()] == f.bytes[f.PlaceOf(x)];
  }

  lemma ShownBlock(s: State, lba: nat, sector: nat, data: seq<byte>, i: nat)
    requires s.Coherent() && AlignedDisk(s.disk) && s.start == PartitionOffset(lba, s.disk.blockSize)
    requires Shows(s, sector, data) && BlockStart(s.disk.blockSize, i) + s.disk.blockSize <= |data|
    ensures ShowsBlock(s, lba, sector, data, i)
  {
    hide State.Coherent, State.Image, BlockStart, Shows, U32, WholeBlocks, PartitionOffset;
    CoherentIsShaped(s);
    var size := s.disk.blockSize;
    var at, from := U32(BlockStart(size, lba + sector + i)), BlockStart(size, i);
    ShownAt(s, lba, sector, data, i, size - 1);
    forall m | from <= m < from + size
      ensures s.Image()[at..at + size][m - from] == data[m]
    {
      ShownAt(s, lba, sector, data, i, m - from);
    }
  }

  lemma ShownByte(s: State, lba: nat, sector: nat, count: nat, data: seq<byte>, k: nat)
    requires s.Coherent() && AlignedDisk(s.disk) && s.start == PartitionOffset(lba, s.disk.blockSize)
    requires k < |data| == BlockStart(s.disk.blockSize, count)
    requires forall i :: 0 <= i < count ==> ShowsBlock(s, lba, sector, data, i)
    ensures var f := AtSector(Abs(s), sector);
            f.Has(f.RawIdx() + k) && data[k] == f.bytes[f.PlaceOf(f.RawIdx() + k)]
  {
    hide State.Coherent, State.Image, BlockStart, BlockOf, OffsetIn, Place, Reachable, U32, PartitionOffset;
    var f, size := AtSector(Abs(s), sector), s.disk.blockSize;
    var i, j := BlockOf(k, size), OffsetIn(k, size);
    BlockFacts(k, size);
    if i > count {
      BlockStartMono(size, count, i);
    }
    assert i < count;
    BlockStartSum(size, sector, i);
    SectorPlace(size, lba, sector + i, j);
    CutIsModulo(f, f.RawIdx() + k);
    assert ShowsBlock(s, lba, sector, data, i);
    var at, from := U32(BlockStart(size, lba + sector + i)), BlockStart(size, i);
    assert s.Image()[at..at + size][j] == data[from..from + size][j];
  }

  /**
   So what the user sees from a sector on are the device blocks at these addresses, in a
   read (`ReadShows`) and after a write (`WriteShowsIff`).
   */
  lemma ShowsIff(s: State, lba: nat, sector: nat, count: nat, data: seq<byte>)
    requires s.Coherent() && AlignedDisk(s.disk) && s.start == PartitionOffset(lba, s.disk.blockSize)
    requires |data| == BlockStart(s.disk.blockSize, count)
    ensures Shows(s, sector, data) <==> forall i :: 0 <= i < count ==> ShowsBlock(s, lba, sector, data, i)
  {
    hide State.Coherent, State.Image, BlockStart, BlockOf, OffsetIn, Place, Reachable, U32, PartitionOffset, ShowsBlock;
    CoherentIsShaped(s);
    var f, size := AtSector(Abs(s), sector), s.disk.blockSize;
    if Shows(s, sector, data) {
      forall i | 0 <= i < count
        ensures ShowsBlock(s, lba, sector, data, i)
      {
        BlockStartMono(size, i, count);
        ShownBlock(s, lba, sector, data, i);
      }
    }
    if forall i :: 0 <= i < count ==> ShowsBlock(s, lba, sector, data, i) {
      forall x | f.RawIdx() <= x < f.RawIdx() + |data|
        ensures f.Has(x) && data[x - f.RawIdx()] == f.bytes[f.PlaceOf(x)]
      {
        ShownByte(s, lba, sector, count, data, x - f.RawIdx());
      }
    }
  }
}
