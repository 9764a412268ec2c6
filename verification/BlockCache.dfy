/**
 The single-block write-back cache over a device that only moves whole blocks
 (src/buf_scsi.rs), as functions from state to state.

 The device is a byte array. Every command it gets is logged, and how it answers
 its n-th command is decided by an oracle, so that a statement about all oracles
 covers every pattern of faults.
 */
module BlockCache {
  import opened Bytes

  const U32_LIMIT: nat := 0x1_0000_0000

  /** The cast `as u32`. */
  function U32(x: nat): (r: nat)
    ensures r < U32_LIMIT
    ensures x < U32_LIMIT ==> r == x
  {
    x % U32_LIMIT
  }

  /** The address sent to the device for block `k`: the product, cut to 32 bits. */
  function DeviceAddr(size: nat, k: nat): nat {
    U32(BlockStart(size, k))
  }

  /** Where on the device the cache keeps the byte at address `x`. */
  function Place(size: nat, x: nat): nat
    requires size > 0
  {
    DeviceAddr(size, BlockOf(x, size)) + OffsetIn(x, size)
  }

  /** The block the cache asks for to get at address `x` is on a device of `total` bytes. */
  predicate Reachable(total: nat, size: nat, x: nat)
    requires size > 0
    ensures Reachable(total, size, x) ==> Place(size, x) < total
  {
    BlockFacts(x, size);
    DeviceAddr(size, BlockOf(x, size)) + size <= total
  }

  // ---------- The device ----------

  /** A read of a block, or a write of a number of bytes. */
  datatype Command = ReadBlock(addr: nat) | WriteBlock(addr: nat, size: nat)

  /**
   How the device answers a command. A finished write may drain the caller's buffer
   or keep it. A faulty command leaves the caller's buffer alone unless it touched it:
   a touched read has filled the buffer, a touched write has drained it.
   */
  datatype Reply = Done(drained: bool) | Fault(touched: bool)

  type Oracle = nat -> Reply

  datatype Disk = Disk(blockSize: nat, bytes: seq<byte>, log: seq<Command>)
  {
    predicate Valid() {
      WholeBlocks(|bytes|, blockSize)
    }
  }

  datatype Transfer = Transfer(disk: Disk, buffer: seq<byte>, ok: bool)

  /** Reads from `addr` on until `buffer` holds `capacity` bytes. */
  function DeviceRead(d: Disk, addr: nat, buffer: seq<byte>, capacity: nat, reply: Reply): (r: Transfer)
    requires |buffer| <= capacity
  {
    var logged := d.(log := d.log + [ReadBlock(addr)]);
    var end := addr + (capacity - |buffer|);
    if end > |d.bytes| then
      Transfer(logged, buffer, false)
    else
      match reply
      case Done(_) => Transfer(logged, buffer + d.bytes[addr..end], true)
      case Fault(touched) => Transfer(logged, if touched then buffer + d.bytes[addr..end] else buffer, false)
  }

  /** Stores all of `buffer` at `addr`. */
  function DeviceWrite(d: Disk, addr: nat, buffer: seq<byte>, reply: Reply): (r: Transfer)
  {
    var logged := d.(log := d.log + [WriteBlock(addr, |buffer|)]);
    if addr + |buffer| > |d.bytes| then
      Transfer(logged, buffer, false)
    else
      match reply
      case Done(drained) =>
        Transfer(logged.(bytes := Patch(d.bytes, addr, buffer)), if drained then [] else buffer, true)
      case Fault(touched) =>
        Transfer(logged, if touched then [] else buffer, false)
  }

  // ---------- The cache ----------

  datatype State = State(
    disk: Disk,
    buffer: seq<byte>,
    start: nat,
    idx: nat,
    loaded: nat,
    dirty: bool)
  {
    function RawIdx(): nat { start + idx }

    function CurBlockRawIdx(): nat
      requires disk.blockSize > 0
    {
      RawIdx() - OffsetIn(RawIdx(), disk.blockSize)
    }

    function CurBlockNumber(): nat
      requires disk.blockSize > 0
    {
      BlockOf(CurBlockRawIdx(), disk.blockSize)
    }

    function OffsetFromCurBlock(): nat
      requires disk.blockSize > 0
    {
      RawIdx() - CurBlockRawIdx()
    }

    /** The address of the block in the buffer, before it is cut to 32 bits. */
    function BufferedBlockRawIdx(): nat { BlockStart(disk.blockSize, loaded) }

    /** Where on the device the block in the buffer belongs. */
    function BufferedAddr(): nat { DeviceAddr(disk.blockSize, loaded) }

    /** What no answer of the device can break. */
    predicate Shaped() {
      disk.Valid() && (buffer == [] || |buffer| == disk.blockSize)
    }

    /**
     The buffer, if it holds a clean block, holds what the device holds, and a write-back
     has a place to go to. A dirty cache with nothing in its buffer is what a write-back
     leaves that failed and drained the buffer.
     */
    predicate Coherent() {
      && Shaped()
      && (dirty || buffer != [] ==> BufferedAddr() + disk.blockSize <= |disk.bytes|)
      && (!dirty && buffer != [] ==> buffer == disk.bytes[BufferedAddr()..BufferedAddr() + disk.blockSize])
    }

    /** What is dirty is in the buffer. */
    predicate Settled() {
      dirty ==> buffer != []
    }

    /** The bytes a user of the cache sees: the device, with the buffered block on top. */
    function Image(): (r: seq<byte>)
      requires Coherent()
      ensures |r| == |disk.bytes|
    {
      if buffer == [] then disk.bytes else Patch(disk.bytes, BufferedAddr(), buffer)
    }

    /** The cursor is in the block loaded last. */
    predicate Stays()
      requires disk.blockSize > 0
    {
      loaded == BlockOf(RawIdx(), disk.blockSize)
    }

    /** The block under the cursor is the one in the buffer. */
    predicate Cached()
      requires disk.blockSize > 0
    {
      buffer != [] && Stays()
    }
  }

  function Fresh(disk: Disk, start: nat): State {
    State(disk, [], start, 0, 0, false)
  }

  /** An outcome of one operation: the bytes it moved, and whether it returned `Ok`. */
  datatype Outcome = Outcome(state: State, data: seq<byte>, ok: bool)

  /** Neither the geometry of the device nor the cursor moves between `s` and `t`. */
  ghost predicate SameFrame(s: State, t: State) {
    && t.disk.blockSize == s.disk.blockSize
    && |t.disk.bytes| == |s.disk.bytes|
    && t.start == s.start
    && t.idx == s.idx
  }

  function Flush(s: State, o: Oracle): (r: Outcome)
    requires s.Shaped()
    ensures r.state.Shaped() && SameFrame(s, r.state) && r.data == []
  {
    if !s.dirty then
      Outcome(s, [], true)
    else
      var w := DeviceWrite(s.disk, s.BufferedAddr(), s.buffer, o(|s.disk.log|));
      Outcome(s.(disk := w.disk, buffer := w.buffer, dirty := if w.ok then false else s.dirty), [], w.ok)
  }

  /** Writes the buffered block back when it is not the one under the cursor, and drops it. */
  function Evict(s: State, o: Oracle): (r: Outcome)
    requires s.Shaped()
    ensures r.state.Shaped() && SameFrame(s, r.state) && r.data == []
  {
    if s.CurBlockNumber() == s.loaded then
      Outcome(s, [], true)
    else
      var f := Flush(s, o);
      if f.ok then f.(state := f.state.(buffer := [])) else f
  }

  /** The rest of the block under the cursor, which is in the buffer. */
  function Slice(s: State): (r: seq<byte>)
    requires s.Shaped() && s.buffer != []
    ensures r != []
  {
    s.buffer[s.OffsetFromCurBlock()..]
  }

  /** Reads the block under the cursor into the empty buffer. */
  function LoadBlock(s: State, o: Oracle): (r: Outcome)
    requires s.Shaped() && s.buffer == []
    ensures r.state.Shaped() && SameFrame(s, r.state)
    ensures r.ok ==> r.state.buffer != []
    ensures r.ok <==> r.data != []
  {
    var d := DeviceRead(s.disk, U32(s.CurBlockRawIdx()), s.buffer, s.disk.blockSize, o(|s.disk.log|));
    var t := s.(disk := d.disk, buffer := d.buffer);
    if d.ok then
      var u := t.(loaded := t.CurBlockNumber());
      Outcome(u, Slice(u), true)
    else
      Outcome(t, [], false)
  }

  /** The data of the outcome is the slice handed out. */
  function FillBuf(s: State, o: Oracle): (r: Outcome)
    requires s.Shaped()
    ensures r.state.Shaped() && SameFrame(s, r.state)
    ensures r.ok ==> r.state.buffer != []
    ensures r.ok <==> r.data != []
  {
    var e := Evict(s, o);
    if !e.ok then e
    else if e.state.buffer == [] then LoadBlock(e.state, o)
    else Outcome(e.state, Slice(e.state), true)
  }

  function Consume(s: State, amt: nat): State {
    s.(idx := s.idx + amt)
  }

  lemma ConsumeShaped(s: State, amt: nat)
    requires s.Shaped()
    ensures Consume(s, amt).Shaped()
  {
  }

  /** Reads `n` bytes, one at a time; the data is what reached the caller's buffer. */
  function Read(s: State, o: Oracle, n: nat): (r: Outcome)
    requires s.Shaped()
    ensures r.state.Shaped() && |r.data| <= n
    decreases n
  {
    if n == 0 then
      Outcome(s, [], true)
    else
      var f := FillBuf(s, o);
      if !f.ok || f.data == [] then
        Outcome(f.state, [], f.ok)
      else
        var rest := Read(Consume(f.state, 1), o, n - 1);
        rest.(data := [f.data[0]] + rest.data)
  }

  /** Stores a byte under the cursor; the block becomes dirty only if the byte differs. */
  function PutByte(s: State, b: byte): (r: State)
    requires s.Shaped() && s.buffer != []
    ensures r.Shaped() && SameFrame(s, r) && r.buffer != []
  {
    var k := s.OffsetFromCurBlock();
    if s.buffer[k] != b then s.(buffer := s.buffer[k := b], dirty := true) else s
  }

  /** Writes `data`, one byte at a time; the data of the outcome is the part written. */
  function Write(s: State, o: Oracle, data: seq<byte>): (r: Outcome)
    requires s.Shaped()
    ensures r.state.Shaped() && r.data <= data
    decreases |data|
  {
    if data == [] then
      Outcome(s, [], true)
    else
      var f := FillBuf(s, o);
      if !f.ok || f.state.buffer == [] then
        Outcome(f.state, [], f.ok)
      else
        var rest := Write(Consume(PutByte(f.state, data[0]), 1), o, data[1..]);
        rest.(data := [data[0]] + rest.data)
  }

  datatype SeekFrom = Start(pos: nat) | Current(off: int)

  function SeekTarget(s: State, from: SeekFrom): int {
    match from
    case Start(pos) => pos
    case Current(off) => s.idx + off
  }
}
