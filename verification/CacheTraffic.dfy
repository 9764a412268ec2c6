/**
 What the cache asks of the device: which blocks it reads, which it writes back, and
 which bytes of the device it can never change.
 */
module CacheTraffic {
  import opened Bytes
  import opened BlockCache
  import opened CacheCoherence
  import opened FlatArray
  import opened CacheRefinement

  // ---------- Logs ----------

  /** The addresses read, in order. */
  function ReadsOf(log: seq<Command>): seq<nat> {
    if log == [] then []
    else
      var last := log[|log| - 1];
      ReadsOf(log[..|log| - 1]) + if last.ReadBlock? then [last.addr] else []
  }

  /** The addresses written, in order. */
  function WritesOf(log: seq<Command>): seq<nat> {
    if log == [] then []
    else
      var last := log[|log| - 1];
      WritesOf(log[..|log| - 1]) + if last.WriteBlock? then [last.addr] else []
  }

  lemma Logged(log: seq<Command>, c: Command)
    ensures ReadsOf(log + [c]) == ReadsOf(log) + if c.ReadBlock? then [c.addr] else []
    ensures WritesOf(log + [c]) == WritesOf(log) + if c.WriteBlock? then [c.addr] else []
  {
    assert (log + [c])[..|log|] == log;
  }

  /** The device addresses of the blocks `first`, ..., `end - 1`. */
  function BlockAddrs(size: nat, first: nat, end: nat): (r: seq<nat>)
    ensures |r| == if first < end then end - first else 0
    ensures forall k :: 0 <= k < |r| ==> r[k] == DeviceAddr(size, first + k)
    decreases end - first
  {
    if first >= end then [] else [DeviceAddr(size, first)] + BlockAddrs(size, first + 1, end)
  }

  // ---------- Device reads and write-backs of one operation ----------

  function CurAddr(s: State): nat
    requires s.disk.blockSize > 0
  {
    DeviceAddr(s.disk.blockSize, BlockOf(s.RawIdx(), s.disk.blockSize))
  }

  /** The reads and the write-backs between `s` and `t`. */
  predicate Sent(s: State, t: State, read: seq<nat>, written: seq<nat>) {
    ReadsOf(t.disk.log) == ReadsOf(s.disk.log) + read && WritesOf(t.disk.log) == WritesOf(s.disk.log) + written
  }

  lemma SentTrans(s: State, m: State, t: State, a: seq<nat>, b: seq<nat>, c: seq<nat>, d: seq<nat>)
    requires Sent(s, m, a, b) && Sent(m, t, c, d)
    ensures Sent(s, t, a + c, b + d)
  {
    hide ReadsOf, WritesOf;
  }

  /** No more write-backs than reads, but for a write-back that failed. */
  predicate PairedWrites(s: State, r: Outcome) {
    |WritesOf(r.state.disk.log)| - |WritesOf(s.disk.log)|
    <= |ReadsOf(r.state.disk.log)| - |ReadsOf(s.disk.log)| + (if r.ok then 0 else 1)
  }

  lemma FlushTraffic(s: State, o: Oracle)
    requires s.Shaped()
    ensures Sent(s, Flush(s, o).state, [], if s.dirty then [s.BufferedAddr()] else [])
  {
    hide ReadsOf, WritesOf, WholeBlocks, DeviceAddr;
    Logged(s.disk.log, WriteBlock(s.BufferedAddr(), |s.buffer|));
  }

  lemma LoadTraffic(s: State, o: Oracle)
    requires s.Shaped() && s.buffer == []
    ensures Sent(s, LoadBlock(s, o).state, [CurAddr(s)], [])
  {
    hide ReadsOf, WritesOf, DeviceAddr, BlockOf, LoadBlock, Slice;
    CursorBlock(s);
    LoadCases(s, o);
    Logged(s.disk.log, ReadBlock(CurAddr(s)));
  }

  /** `fill_buf` writes back a dirty block it has to leave, then reads a block it lacks. */
  lemma FillTraffic(s: State, o: Oracle)
    requires s.Coherent() && NoFill(o, s.disk, FillBuf(s, o).state.disk)
    ensures var f := FillBuf(s, o);
            && (f.ok ==> Sent(s, f.state, if s.Cached() then [] else [CurAddr(s)],
                              if s.dirty && !s.Stays() then [s.BufferedAddr()] else []))
            && (f.ok ==> f.state.dirty == (s.dirty && s.Stays()))
            && (s.Cached() ==> f.ok && f.state == s)
            && PairedWrites(s, f)
  {
    hide Flush, LoadBlock, WholeBlocks, OffsetIn, BlockOf, BlockStart, DeviceAddr, ReadsOf, WritesOf,
         State.Coherent, State.Image, NoFill, NoDrain, AllDone;
    CoherentIsShaped(s);
    CursorBlock(s);
    FlushTraffic(s, o);
    FillBufKeepsView(s, o);
    var e := Evict(s, o);
    if e.ok && e.state.buffer == [] {
      LoadTraffic(e.state, o);
    }
  }

  /** The block of the address one on is the same block or the next. */
  lemma NextBlock(x: nat, size: nat)
    requires size > 0
    ensures BlockOf(x + 1, size) == BlockOf(x, size) || BlockOf(x + 1, size) == BlockOf(x, size) + 1
    ensures OffsetIn(x, size) + 1 < size <==> BlockOf(x + 1, size) == BlockOf(x, size)
  {
    var q := BlockOf(x, size);
    BlockFacts(x, size);
    BlockStartNext(size, q);
    BlockUnique(x + 1, size, q);
    BlockUnique(x + 1, size, q + 1);
  }

  lemma BlockOfMono(x: nat, y: nat, size: nat)
    requires size > 0 && x <= y
    ensures BlockOf(x, size) <= BlockOf(y, size)
    decreases y - x
  {
    if x < y {
      NextBlock(x, size);
      BlockOfMono(x + 1, y, size);
    }
  }

  /** The first block a transfer from the cursor on has to read. */
  function FirstMissing(s: State): nat
    requires s.disk.blockSize > 0
  {
    BlockOf(s.RawIdx(), s.disk.blockSize) + if s.Cached() then 1 else 0
  }

  /** The blocks a transfer of `n > 0` bytes from the cursor on has to read, in order. */
  function Missing(s: State, n: nat): seq<nat>
    requires s.disk.blockSize > 0 && n > 0
  {
    BlockAddrs(s.disk.blockSize, FirstMissing(s), BlockOf(s.RawIdx() + n - 1, s.disk.blockSize) + 1)
  }

  lemma FillLoads(s: State, o: Oracle)
    requires s.Shaped()
    ensures s.Stays() ==> FillBuf(s, o).state.loaded == s.loaded
  {
    hide Flush, WholeBlocks, OffsetIn, BlockOf, BlockStart;
    CursorBlock(s);
  }

  /** After the first byte, whose block is `t`'s, the rest of the transfer misses the rest. */
  lemma MissingNext(s: State, t: State, n: nat)
    requires s.disk.blockSize > 0 && SameFrame(s, t) && t.Cached() && n > 0
    ensures n > 1 ==> Missing(s, n) == (if s.Cached() then [] else [CurAddr(s)]) + Missing(Consume(t, 1), n - 1)
    ensures n == 1 ==> Missing(s, n) == if s.Cached() then [] else [CurAddr(s)]
  {
    var size := s.disk.blockSize;
    NextBlock(s.RawIdx(), size);
    BlockOfMono(s.RawIdx(), s.RawIdx() + n - 1, size);
    hide BlockOf, DeviceAddr;
  }

  /** A transfer of `n > 0` bytes from the cursor on leaves a dirty block behind. */
  predicate Leaves(s: State, n: nat)
    requires s.disk.blockSize > 0 && n > 0
  {
    s.dirty && !(s.loaded == BlockOf(s.RawIdx(), s.disk.blockSize) == BlockOf(s.RawIdx() + n - 1, s.disk.blockSize))
  }

  lemma LeavesNext(s: State, t: State, n: nat)
    requires s.disk.blockSize > 0 && SameFrame(s, t) && t.Cached() && n > 0
    requires t.dirty == (s.dirty && s.Stays()) && (s.Stays() ==> t.loaded == s.loaded)
    ensures n > 1 ==> (Leaves(s, n) <==> (s.dirty && !s.Stays()) || Leaves(Consume(t, 1), n - 1))
    ensures n > 1 && Leaves(Consume(t, 1), n - 1) ==>
              s.dirty && s.Stays() && Consume(t, 1).BufferedAddr() == s.BufferedAddr()
    ensures n == 1 ==> (Leaves(s, n) <==> s.dirty && !s.Stays())
  {
    var size := s.disk.blockSize;
    NextBlock(s.RawIdx(), size);
    if n > 1 {
      BlockOfMono(s.RawIdx() + 1, s.RawIdx() + n - 1, size);
    }
    hide BlockOf, BlockStart;
  }

  /**
   A read that succeeds reads exactly the blocks of its range that are not in the buffer,
   in ascending order and each once, and writes back the buffered block exactly if
   it is dirty and the range leaves it.
   */
  lemma {:induction false} ReadTraffic(s: State, o: Oracle, n: nat)
    requires s.Coherent() && NoFill(o, s.disk, Read(s, o, n).state.disk) && n > 0
    ensures var r := Read(s, o, n);
            && PairedWrites(s, r)
            && (r.ok ==> Sent(s, r.state, Missing(s, n), if Leaves(s, n) then [s.BufferedAddr()] else []))
    decreases n
  {
    hide FillBuf, State.Coherent, State.Image, State.Shaped, State.Cached, State.Stays, ReadsOf, WritesOf,
         Missing, CurAddr, State.BufferedAddr, Leaves, NoFill, NoDrain, AllDone, Later, DeviceAddr;
    CoherentIsShaped(s);
    var f, r := FillBuf(s, o), Read(s, o, n);
    if f.ok {
      var next := Consume(f.state, 1);
      ConsumeShaped(f.state, 1);
      FillGrows(s, o);
      ReadGrows(next, o, n - 1);
      SplitAnswers(o, s.disk, f.state.disk, r.state.disk);
      FillRefines(s, o);
      FillTraffic(s, o);
      FillLoads(s, o);
      CursorKeepsView(f.state, next.idx);
      MissingNext(s, f.state, n);
      LeavesNext(s, f.state, n);
      var left := if s.dirty && !s.Stays() then [s.BufferedAddr()] else [];
      if n == 1 {
      } else {
        ReadTraffic(next, o, n - 1);
        if r.ok {
          SentTrans(s, next, r.state, if s.Cached() then [] else [CurAddr(s)], left,
                    Missing(next, n - 1), if Leaves(next, n - 1) then [s.BufferedAddr()] else []);
          assert left + [] == left && [] + left == left && [] + [s.BufferedAddr()] == [s.BufferedAddr()];
        }
      }
    } else {
      FillTraffic(s, o);
    }
  }

  // ---------- The blocks a write changes ----------

  /** Storing `data` from the cursor on changes a byte when it gets to the `i`-th. */
  predicate Changes(f: Flat, data: seq<byte>, i: nat)
    requires f.blockSize > 0 && i < |data|
  {
    f.Has(f.RawIdx() + i) && Stored(f, data[..i])[f.PlaceOf(f.RawIdx() + i)] != data[i]
  }

  /** It changes a byte of block `k`. */
  ghost predicate ChangesBlock(f: Flat, data: seq<byte>, k: nat)
    requires f.blockSize > 0
  {
    exists i :: 0 <= i < |data| && BlockOf(f.RawIdx() + i, f.blockSize) == k && Changes(f, data, i)
  }

  /** The addresses of the blocks from `k` up to `end` that it changes, in order; block `k` also if it is `dirty`. */
  ghost function ChangedBlocks(f: Flat, data: seq<byte>, k: nat, end: nat, dirty: bool): seq<nat>
    requires f.blockSize > 0
    decreases end - k
  {
    if k >= end then []
    else
      (if dirty || ChangesBlock(f, data, k) then [DeviceAddr(f.blockSize, k)] else [])
      + ChangedBlocks(f, data, k + 1, end, false)
  }

  lemma ChangesNext(f: Flat, b: byte, rest: seq<byte>, i: nat)
    requires f.blockSize > 0 && f.Has(f.RawIdx()) && i < |rest|
    ensures Changes(f, [b] + rest, i + 1) <==> Changes(f.Put(b), rest, i)
  {
    hide Place, Reachable, Stored;
    assert ([b] + rest)[..i + 1] == [b] + rest[..i];
    StoredCons(f, b, rest[..i]);
  }

  lemma ChangesFirst(f: Flat, data: seq<byte>)
    requires f.blockSize > 0 && f.Has(f.RawIdx()) && data != []
    ensures Changes(f, data, 0) <==> f.bytes[f.PlaceOf(f.RawIdx())] != data[0]
  {
    hide Place, Reachable;
    assert data[..0] == [];
  }

  /** The block of the first byte changes with that byte, or later; any other block later. */
  lemma ChangesBlockNext(f: Flat, b: byte, rest: seq<byte>, k: nat)
    requires f.blockSize > 0 && f.Has(f.RawIdx())
    ensures ChangesBlock(f, [b] + rest, k)
       <==> (k == BlockOf(f.RawIdx(), f.blockSize) && Changes(f, [b] + rest, 0)) || ChangesBlock(f.Put(b), rest, k)
  {
    hide Changes, BlockOf, Place, Reachable;
    var data, g := [b] + rest, f.Put(b);
    if ChangesBlock(f, data, k) {
      var i :| 0 <= i < |data| && BlockOf(f.RawIdx() + i, f.blockSize) == k && Changes(f, data, i);
      if i > 0 {
        ChangesNext(f, b, rest, i - 1);
        assert g.RawIdx() + (i - 1) == f.RawIdx() + i;
        assert Changes(g, rest, i - 1);
      } else {
        assert f.RawIdx() + 0 == f.RawIdx();
      }
    }
    if ChangesBlock(g, rest, k) {
      var i :| 0 <= i < |rest| && BlockOf(g.RawIdx() + i, g.blockSize) == k && Changes(g, rest, i);
      ChangesNext(f, b, rest, i);
      assert g.RawIdx() + i == f.RawIdx() + (i + 1);
      assert Changes(f, data, i + 1);
    }
    if k == BlockOf(f.RawIdx(), f.blockSize) && Changes(f, data, 0) {
      assert f.RawIdx() + 0 == f.RawIdx();
    }
  }

  /** No block in front of the cursor changes. */
  lemma ChangesBehind(f: Flat, data: seq<byte>, k: nat)
    requires f.blockSize > 0 && k < BlockOf(f.RawIdx(), f.blockSize)
    ensures !ChangesBlock(f, data, k)
  {
    hide Changes, BlockOf;
    forall i | 0 <= i < |data| && Changes(f, data, i)
      ensures BlockOf(f.RawIdx() + i, f.blockSize) != k
    {
      BlockOfMono(f.RawIdx(), f.RawIdx() + i, f.blockSize);
    }
  }

  lemma {:induction false} LaterBlocks(f: Flat, b: byte, rest: seq<byte>, k: nat, end: nat)
    requires f.blockSize > 0 && f.Has(f.RawIdx()) && k > BlockOf(f.RawIdx(), f.blockSize)
    ensures ChangedBlocks(f, [b] + rest, k, end, false) == ChangedBlocks(f.Put(b), rest, k, end, false)
    decreases end - k
  {
    hide ChangesBlock, Changes, BlockOf, DeviceAddr, Place, Reachable;
    if k >= end {
    } else {
      ChangesBlockNext(f, b, rest, k);
      LaterBlocks(f, b, rest, k + 1, end);
    }
  }

  /** The blocks behind the first are those the rest changes. */
  lemma ChangedNext(f: Flat, b: byte, rest: seq<byte>, end: nat, dirty: bool)
    requires f.blockSize > 0 && f.Has(f.RawIdx()) && rest != []
    requires end == BlockOf(f.RawIdx() + |rest|, f.blockSize)
    ensures var k, l := BlockOf(f.RawIdx(), f.blockSize), BlockOf(f.RawIdx() + 1, f.blockSize);
            var now := dirty || Changes(f, [b] + rest, 0);
            ChangedBlocks(f, [b] + rest, k, end, dirty)
            == (if now && l != k then [DeviceAddr(f.blockSize, k)] else [])
               + ChangedBlocks(f.Put(b), rest, l, end, now && l == k)
  {
    hide ChangesBlock, Changes, BlockOf, DeviceAddr, Place, Reachable;
    var k, l := BlockOf(f.RawIdx(), f.blockSize), BlockOf(f.RawIdx() + 1, f.blockSize);
    NextBlock(f.RawIdx(), f.blockSize);
    BlockOfMono(f.RawIdx() + 1, f.RawIdx() + |rest|, f.blockSize);
    ChangesBlockNext(f, b, rest, k);
    LaterBlocks(f, b, rest, k + 1, end);
    if l != k {
      ChangesBehind(f.Put(b), rest, k);
    }
  }

  lemma NothingChanges(f: Flat, data: seq<byte>, k: nat, dirty: bool)
    requires f.blockSize > 0
    ensures ChangedBlocks(f, data, k, k, dirty) == []
    ensures !ChangesBlock(f, [], k)
  {
  }

  lemma CachedStays(s: State)
    requires s.disk.blockSize > 0 && s.Cached()
    ensures s.loaded == BlockOf(s.RawIdx(), s.disk.blockSize)
  {
  }

  /** What a successful write of `data` writes back: a dirty block it leaves at once, then what it changed and left. */
  ghost function WrittenBack(s: State, data: seq<byte>): seq<nat>
    requires s.Coherent() && data != []
  {
    var size := s.disk.blockSize;
    (if s.dirty && !s.Stays() then [s.BufferedAddr()] else [])
    + ChangedBlocks(Abs(s), data, BlockOf(s.RawIdx(), size), BlockOf(s.RawIdx() + |data| - 1, size),
                    s.dirty && s.Stays())
  }

  /** The block it ends in is dirty then if it changed, or was dirty and never left. */
  ghost predicate EndsDirty(s: State, data: seq<byte>)
    requires s.Coherent() && data != []
  {
    var last := BlockOf(s.RawIdx() + |data| - 1, s.disk.blockSize);
    ChangesBlock(Abs(s), data, last) || (s.dirty && s.loaded == BlockOf(s.RawIdx(), s.disk.blockSize) == last)
  }

  /** After the first byte, `t`, the rest writes back the rest. */
  lemma WrittenBackNext(s: State, t: State, data: seq<byte>)
    requires s.Coherent() && t.Coherent() && data != [] && Abs(s).Has(s.RawIdx()) && Abs(t) == Abs(s).Put(data[0])
    requires t.loaded == BlockOf(s.RawIdx(), s.disk.blockSize)
    requires t.dirty <==> (s.dirty && s.Stays()) || Abs(s).bytes[Abs(s).PlaceOf(s.RawIdx())] != data[0]
    ensures |data| == 1 ==> && WrittenBack(s, data) == (if s.dirty && !s.Stays() then [s.BufferedAddr()] else [])
                            && (t.dirty <==> EndsDirty(s, data))
    ensures |data| > 1 ==>
              && WrittenBack(s, data) == (if s.dirty && !s.Stays() then [s.BufferedAddr()] else [])
                                         + WrittenBack(t, data[1..])
              && (EndsDirty(s, data) <==> EndsDirty(t, data[1..]))
  {
    hide State.Coherent, State.Image, ChangesBlock, Changes, BlockOf, DeviceAddr, Place, Reachable, ChangedBlocks;
    var f, rest, size := Abs(s), data[1..], s.disk.blockSize;
    CoherentIsShaped(s);
    assert data == [data[0]] + rest;
    ChangesFirst(f, data);
    NextBlock(s.RawIdx(), size);
    var last := BlockOf(s.RawIdx() + |data| - 1, size);
    ChangesBlockNext(f, data[0], rest, last);
    if |data| == 1 {
      assert rest == [] && s.RawIdx() + |data| - 1 == s.RawIdx();
      NothingChanges(f, data, last, s.dirty && s.Stays());
      NothingChanges(f.Put(data[0]), [], last, false);
    } else {
      BlockOfMono(s.RawIdx() + 1, s.RawIdx() + |data| - 1, size);
      ChangedNext(f, data[0], rest, last, s.dirty && s.Stays());
    }
  }

  /**
   A write that succeeds reads the same blocks. It writes back a dirty block that it leaves
   at once, and then, in order, the blocks of its range behind it that it changed.
   */
  lemma {:induction false} WriteTraffic(s: State, o: Oracle, data: seq<byte>)
    requires s.Coherent() && NoFill(o, s.disk, Write(s, o, data).state.disk) && data != []
    ensures var r := Write(s, o, data);
            && PairedWrites(s, r)
            && (r.ok ==> && Sent(s, r.state, Missing(s, |data|), WrittenBack(s, data))
                         && (r.state.dirty <==> EndsDirty(s, data)))
    decreases |data|
  {
    hide FillBuf, PutByte, State.Coherent, State.Image, State.Shaped, State.Cached, State.Stays, ReadsOf, WritesOf,
         Missing, CurAddr, State.BufferedAddr, Place, Reachable, NoFill, NoDrain, AllDone, Later, DeviceAddr,
         WrittenBack, EndsDirty;
    CoherentIsShaped(s);
    var f, r := FillBuf(s, o), Write(s, o, data);
    if f.ok {
      var put := PutByte(f.state, data[0]);
      var next := Consume(put, 1);
      PutByteKeepsDisk(f.state, data[0]);
      ConsumeShaped(put, 1);
      FillGrows(s, o);
      WriteGrows(next, o, data[1..]);
      SplitAnswers(o, s.disk, f.state.disk, r.state.disk);
      FillRefines(s, o);
      FillTraffic(s, o);
      PutRefines(f.state, data[0]);
      PutByteChangesOne(f.state, data[0]);
      CursorKeepsView(put, next.idx);
      MissingNext(s, put, |data|);
      CachedStays(put);
      WrittenBackNext(s, next, data);
      if |data| == 1 {
        assert data[1..] == [];
      } else {
        WriteTraffic(next, o, data[1..]);
        if r.ok {
          SentTrans(s, next, r.state, if s.Cached() then [] else [CurAddr(s)],
                    if s.dirty && !s.Stays() then [s.BufferedAddr()] else [],
                    Missing(next, |data| - 1), WrittenBack(next, data[1..]));
        }
      }
    } else {
      FillTraffic(s, o);
    }
  }

  /** The number of device reads of a transfer, by arithmetic on its two ends. */
  lemma ReadCount(s: State, o: Oracle, n: nat)
    requires s.Coherent() && n > 0 && Read(s, o, n).ok
    ensures |ReadsOf(Read(s, o, n).state.disk.log)| - |ReadsOf(s.disk.log)|
         == (s.RawIdx() + n - 1) / s.disk.blockSize - s.RawIdx() / s.disk.blockSize + 1
            - if s.Cached() then 1 else 0
  {
    hide Read, BlockStart, WholeBlocks, State.Coherent, DeviceAddr;
    CoherentIsShaped(s);
    ReadOkDone(s, o, n);
    DoneIsUnharmed(o, s.disk, Read(s, o, n).state.disk);
    ReadTraffic(s, o, n);
    BlockOfMono(s.RawIdx(), s.RawIdx() + n - 1, s.disk.blockSize);
  }
}
