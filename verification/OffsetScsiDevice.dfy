/**
 `OffsetScsiDevice` as src/buf_scsi.rs writes it: an object that updates its fields
 in place, with a loop per byte. Each method does to the state what its function in
 `BlockCache` says.
 */
module OffsetScsi {
  import opened Bytes
  import opened Wrappers
  import opened VecNewtypes
  import opened BlockCache
  import opened CacheCoherence
  import opened FlatArray
  import opened CacheRefinement

  // An I/O call returns `None` for an `Err`.

  /** The block device of the `scsi` crate, as far as the cache can tell. */
  class ScsiBlockDevice {
    var disk: Disk
    const oracle: Oracle

    constructor (disk: Disk, oracle: Oracle)
      ensures this.disk == disk && this.oracle == oracle
    {
      this.disk, this.oracle := disk, oracle;
    }

    method Read(addr: nat, buffer: VecNewtype) returns (ok: bool)
      requires buffer.Bounded()
      modifies this`disk, buffer`inner
      ensures Transfer(disk, buffer.inner, ok)
           == DeviceRead(old(disk), addr, old(buffer.inner), buffer.fakeSize, oracle(old(|disk.log|)))
    {
      var t := DeviceRead(disk, addr, buffer.inner, buffer.fakeSize, oracle(|disk.log|));
      disk, buffer.inner, ok := t.disk, t.buffer, t.ok;
    }

    method Write(addr: nat, buffer: VecNewtype) returns (ok: bool)
      modifies this`disk, buffer`inner
      ensures Transfer(disk, buffer.inner, ok)
           == DeviceWrite(old(disk), addr, old(buffer.inner), oracle(old(|disk.log|)))
    {
      var t := DeviceWrite(disk, addr, buffer.inner, oracle(|disk.log|));
      disk, buffer.inner, ok := t.disk, t.buffer, t.ok;
    }
  }

  /** With `got` read already and the cache in state `s`, the whole read comes out as `spec`. */
  ghost predicate ReadsOn(spec: Outcome, got: seq<byte>, s: State, o: Oracle, rest: nat) {
    s.Shaped() &&
    (var r := BlockCache.Read(s, o, rest);
     spec == Outcome(r.state, got + r.data, r.ok))
  }

  lemma ReadStart(s: State, o: Oracle, n: nat)
    requires s.Shaped()
    ensures ReadsOn(BlockCache.Read(s, o, n), [], s, o, n)
  {
  }

  /** One round of the loop of `read`, and its end. */
  lemma ReadRound(spec: Outcome, got: seq<byte>, s: State, o: Oracle, rest: nat)
    requires ReadsOn(spec, got, s, o, rest)
    ensures s.Shaped()
    ensures rest == 0 ==> spec == Outcome(s, got, true)
    ensures rest > 0 ==>
              var f := BlockCache.FillBuf(s, o);
              if f.ok then ReadsOn(spec, got + [f.data[0]], BlockCache.Consume(f.state, 1), o, rest - 1)
              else spec == Outcome(f.state, got, false)
  {
    hide BlockCache.FillBuf, WholeBlocks;
    if rest > 0 && BlockCache.FillBuf(s, o).ok {
      var f := BlockCache.FillBuf(s, o);
      var r := BlockCache.Read(BlockCache.Consume(f.state, 1), o, rest - 1);
      assert got + ([f.data[0]] + r.data) == got + [f.data[0]] + r.data;
    }
  }

  /** With the first `done` bytes written and the cache in state `s`, the write comes out as `spec`. */
  ghost predicate WritesOn(spec: Outcome, data: seq<byte>, done: nat, s: State, o: Oracle) {
    s.Shaped() && done <= |data| &&
    (var r := BlockCache.Write(s, o, data[done..]);
     spec == Outcome(r.state, data[..done] + r.data, r.ok))
  }

  lemma WriteStart(s: State, o: Oracle, data: seq<byte>)
    requires s.Shaped()
    ensures WritesOn(BlockCache.Write(s, o, data), data, 0, s, o)
  {
  }

  lemma NextByte(data: seq<byte>, done: nat)
    requires done < |data|
    ensures data[done..] != [] && data[done..][0] == data[done] && data[done..][1..] == data[done + 1..]
    ensures data[..done] + [data[done]] == data[..done + 1]
    ensures data[..done] + [] == data[..done]
  {
  }

  lemma AppendOne(a: seq<byte>, b: byte, c: seq<byte>)
    ensures a + ([b] + c) == a + [b] + c
  {
  }

  /** One round of the loop of `write`, and its end. */
  lemma WriteRound(spec: Outcome, data: seq<byte>, done: nat, s: State, o: Oracle)
    requires WritesOn(spec, data, done, s, o)
    ensures s.Shaped()
    ensures done == |data| ==> spec == Outcome(s, data, true)
    ensures done < |data| ==>
              var f := BlockCache.FillBuf(s, o);
              if f.ok then WritesOn(spec, data, done + 1, BlockCache.Consume(PutByte(f.state, data[done]), 1), o)
              else spec == Outcome(f.state, data[..done], false)
  {
    hide BlockCache.FillBuf, PutByte, State.Shaped;
    if done == |data| {
      assert data[..done] + [] == data;
    } else {
      NextByte(data, done);
      var f := BlockCache.FillBuf(s, o);
      if f.ok {
        var next := BlockCache.Consume(PutByte(f.state, data[done]), 1);
        ConsumeShaped(PutByte(f.state, data[done]), 1);
        AppendOne(data[..done], data[done], BlockCache.Write(next, o, data[done + 1..]).data);
      }
    }
  }

  class OffsetScsiDevice {
    const device: ScsiBlockDevice
    const blockBuffer: VecNewtype
    var partitionStart: nat
    var partitionIdx: nat
    var loadedBlockNumber: nat
    var needsFlush: bool

    ghost function Repr(): set<object> {
      {this, device, blockBuffer}
    }

    function View(): State
      reads this, device, blockBuffer
    {
      State(device.disk, blockBuffer.inner, partitionStart, partitionIdx, loadedBlockNumber, needsFlush)
    }

    ghost predicate Valid()
      reads this, device, blockBuffer
    {
      View().Shaped() && blockBuffer.fakeSize == device.disk.blockSize
    }

    constructor (device: ScsiBlockDevice, partitionStart: nat)
      requires device.disk.Valid()
      ensures Valid() && this.device == device && fresh(blockBuffer)
      ensures View() == Fresh(device.disk, partitionStart)
      ensures View().Coherent() && View().Image() == device.disk.bytes
    {
      this.device := device;
      this.blockBuffer := new VecNewtype.WithFakeCapacity(device.disk.blockSize);
      this.partitionStart := partitionStart;
      this.partitionIdx := 0;
      this.loadedBlockNumber := 0;
      this.needsFlush := false;
    }

    method Flush() returns (ok: bool)
      requires Valid()
      modifies Repr()
      ensures Valid()
      ensures var spec := BlockCache.Flush(old(View()), device.oracle);
              View() == spec.state && ok == spec.ok
    {
      if !needsFlush {
        return true;
      }
      var rawIdx := View().BufferedBlockRawIdx();
      ok := device.Write(U32(rawIdx), blockBuffer);
      if ok {
        needsFlush := false;
      }
    }

    method FillBuf() returns (slice: Option<seq<byte>>)
      requires Valid()
      modifies Repr()
      ensures Valid()
      ensures var spec := BlockCache.FillBuf(old(View()), device.oracle);
              View() == spec.state && slice == if spec.ok then Some(spec.data) else None
    {
      hide BlockOf, OffsetIn, BlockStart, WholeBlocks, BlockCache.Flush, State.CurBlockRawIdx,
           State.CurBlockNumber, State.OffsetFromCurBlock;
      CursorBlock(View());
      if View().CurBlockNumber() != loadedBlockNumber {
        var ok := Flush();
        if !ok {
          return None;
        }
        blockBuffer.Clear();
      }
      var blockIdx := U32(View().CurBlockRawIdx());
      if blockBuffer.inner == [] {
        var ok := device.Read(blockIdx, blockBuffer);
        if !ok {
          return None;
        }
        loadedBlockNumber := View().CurBlockNumber();
      }
      CursorBlock(View());
      slice := Some(blockBuffer.inner[View().OffsetFromCurBlock()..]);
    }

    method Consume(amt: nat)
      requires Valid()
      modifies this`partitionIdx
      ensures Valid()
      ensures View() == BlockCache.Consume(old(View()), amt)
    {
      partitionIdx := partitionIdx + amt;
    }

    /** On an `Err` the bytes in front of the failure have reached the caller's buffer. */
    method Read(output: array<byte>) returns (count: Option<nat>)
      requires Valid()
      modifies Repr(), output
      ensures Valid()
      ensures var spec := BlockCache.Read(old(View()), device.oracle, output.Length);
              && View() == spec.state
              && output[..] == spec.data + old(output[..])[|spec.data|..]
              && count == if spec.ok then Some(|spec.data|) else None
    {
      hide BlockCache.FillBuf, BlockCache.Read, BlockCache.Consume, ReadsOn, State.Shaped;
      ghost var before, spec := output[..], BlockCache.Read(View(), device.oracle, output.Length);
      var outputIdx := 0;
      ReadStart(View(), device.oracle, output.Length);
      while outputIdx < output.Length
        invariant Valid() && 0 <= outputIdx <= output.Length
        invariant output[outputIdx..] == before[outputIdx..]
        invariant ReadsOn(spec, output[..outputIdx], View(), device.oracle, output.Length - outputIdx)
      {
        ReadRound(spec, output[..outputIdx], View(), device.oracle, output.Length - outputIdx);
        var buff := FillBuf();
        if buff.None? {
          return None;
        }
        if buff.value == [] {
          break;
        }
        output[outputIdx] := buff.value[0];
        outputIdx := outputIdx + 1;
        Consume(1);
        assert output[..outputIdx] == output[..outputIdx - 1] + [buff.value[0]];
      }
      ReadRound(spec, output[..outputIdx], View(), device.oracle, 0);
      count := Some(outputIdx);
    }

    /** The part of `write` between the loads: store unless the byte is there already. */
    method StoreByte(b: byte)
      requires Valid() && blockBuffer.inner != []
      modifies blockBuffer`inner, this`needsFlush
      ensures Valid()
      ensures View() == PutByte(old(View()), b)
    {
      var blockOffset := View().OffsetFromCurBlock();
      if blockBuffer.inner[blockOffset] != b {
        blockBuffer.inner := blockBuffer.inner[blockOffset := b];
        needsFlush := true;
      }
    }

    method Write(toWrite: seq<byte>) returns (count: Option<nat>)
      requires Valid()
      modifies Repr()
      ensures Valid()
      ensures var spec := BlockCache.Write(old(View()), device.oracle, toWrite);
              && View() == spec.state
              && count == if spec.ok then Some(|spec.data|) else None
    {
      hide BlockCache.FillBuf, BlockCache.Write, BlockCache.Consume, PutByte, WritesOn, State.Shaped;
      ghost var spec := BlockCache.Write(View(), device.oracle, toWrite);
      var writtenIdx := 0;
      WriteStart(View(), device.oracle, toWrite);
      while writtenIdx < |toWrite|
        invariant Valid() && 0 <= writtenIdx <= |toWrite|
        invariant WritesOn(spec, toWrite, writtenIdx, View(), device.oracle)
      {
        WriteRound(spec, toWrite, writtenIdx, View(), device.oracle);
        var slice := FillBuf();
        if slice.None? {
          return None;
        }
        if blockBuffer.inner == [] {
          break;
        }
        StoreByte(toWrite[writtenIdx]);
        writtenIdx := writtenIdx + 1;
        Consume(1);
      }
      WriteRound(spec, toWrite, writtenIdx, View(), device.oracle);
      count := Some(writtenIdx);
    }

    method Seek(from: SeekFrom) returns (pos: nat)
      requires SeekTarget(View(), from) >= 0
      modifies this`partitionIdx
      ensures View() == old(View()).(idx := pos) && pos == SeekTarget(old(View()), from)
    {
      match from
      case Start(absr) =>
        partitionIdx := absr;
        pos := absr;
      case Current(off) =>
        var absr := if off < 0 then partitionIdx - (-off) else partitionIdx + off;
        partitionIdx := absr;
        pos := absr;
    }

    /** Dropping the device flushes it, and cannot say whether that worked. */
    method Drop()
      requires Valid()
      modifies Repr()
      ensures Valid()
      ensures View() == BlockCache.Flush(old(View()), device.oracle).state
    {
      var _ := Flush();
    }
  }

  /** Also a read that fails moves the cursor by what it read. */
  lemma {:induction false} ReadMoves(s: State, o: Oracle, n: nat)
    requires s.Shaped()
    ensures BlockCache.Read(s, o, n).state.idx == s.idx + |BlockCache.Read(s, o, n).data|
    decreases n
  {
    hide BlockCache.FillBuf, WholeBlocks;
    if n == 0 || !BlockCache.FillBuf(s, o).ok {
    } else {
      ReadMoves(BlockCache.Consume(BlockCache.FillBuf(s, o).state, 1), o, n - 1);
    }
  }

  /** A read that succeeds has delivered all it was asked for. */
  lemma {:induction false} ReadOkLength(s: State, o: Oracle, n: nat)
    requires s.Shaped() && BlockCache.Read(s, o, n).ok
    ensures |BlockCache.Read(s, o, n).data| == n
    decreases n
  {
    hide BlockCache.FillBuf, WholeBlocks;
    if n == 0 {
    } else {
      ReadOkLength(BlockCache.Consume(BlockCache.FillBuf(s, o).state, 1), o, n - 1);
    }
  }

  /** Also a write that fails moves the cursor by what it wrote. */
  lemma {:induction false} WriteMoves(s: State, o: Oracle, data: seq<byte>)
    requires s.Shaped()
    ensures BlockCache.Write(s, o, data).state.idx == s.idx + |BlockCache.Write(s, o, data).data|
    decreases |data|
  {
    hide BlockCache.FillBuf, PutByte, WholeBlocks;
    if data == [] || !BlockCache.FillBuf(s, o).ok {
    } else {
      WriteMoves(BlockCache.Consume(PutByte(BlockCache.FillBuf(s, o).state, data[0]), 1), o, data[1..]);
    }
  }

  /** One operation of a user, done by the methods of the device. */
  method Perform(dev: OffsetScsiDevice, op: Op) returns (resp: Response)
    requires dev.Valid() && Allowed(dev.View(), op)
    modifies dev.Repr()
    ensures dev.Valid()
    ensures Stepped(dev.View(), resp) == Step(old(dev.View()), dev.device.oracle, op)
  {
    hide BlockCache.Read, BlockCache.Write, BlockCache.FillBuf, BlockCache.Flush, WholeBlocks;
    var before := dev.partitionIdx;
    match op
    case SeekOp(from) =>
      var pos := dev.Seek(from);
      resp := At(pos);
    case ReadOp(n) =>
      var output := new byte[n](_ => 0);
      var count := dev.Read(output);
      ReadMoves(old(dev.View()), dev.device.oracle, n);
      ghost var data := BlockCache.Read(old(dev.View()), dev.device.oracle, n).data;
      assert output[..|data|] == data;
      resp := Moved(output[..dev.partitionIdx - before], count.Some?);
    case WriteOp(bytes) =>
      var count := dev.Write(bytes);
      WriteMoves(old(dev.View()), dev.device.oracle, bytes);
      ghost var data := BlockCache.Write(old(dev.View()), dev.device.oracle, bytes).data;
      assert bytes[..|data|] == data;
      resp := Moved(bytes[..dev.partitionIdx - before], count.Some?);
    case FlushOp =>
      var ok := dev.Flush();
      resp := Moved([], ok);
    case FillOp =>
      var slice := dev.FillBuf();
      resp := if slice.Some? then Moved(slice.value, true) else Moved([], false);
    case ConsumeOp(amt) =>
      dev.Consume(amt);
      resp := Moved([], true);
  }

  /** With the answers `got` behind it and the cache in state `s`, the run comes out as `all`. */
  ghost predicate RunsOn(all: Ran, got: seq<Response>, s: State, o: Oracle, rest: seq<Op>) {
    s.Shaped() && AllowedRun(s, o, rest) &&
    (var r := Run(s, o, rest);
     all == Ran(r.state, got + r.responses))
  }

  lemma RunStart(s: State, o: Oracle, ops: seq<Op>)
    requires s.Shaped() && AllowedRun(s, o, ops)
    ensures RunsOn(Run(s, o, ops), [], s, o, ops)
  {
  }

  lemma RunRound(all: Ran, got: seq<Response>, s: State, o: Oracle, rest: seq<Op>)
    requires RunsOn(all, got, s, o, rest)
    ensures s.Shaped()
    ensures rest == [] ==> all == Ran(s, got)
    ensures rest != [] ==>
              && Allowed(s, rest[0])
              && RunsOn(all, got + [Step(s, o, rest[0]).response], Step(s, o, rest[0]).state, o, rest[1..])
  {
    hide Step, Allowed, WholeBlocks;
    if rest == [] {
      assert got + [] == got;
    } else {
      var first := Step(s, o, rest[0]);
      var later := Run(first.state, o, rest[1..]).responses;
      assert got + ([first.response] + later) == got + [first.response] + later;
    }
  }

  /**
   A whole run, ended by `Drop`, at any addresses. If no fault touches the buffer, its
   answers are some the array allows, and the user's bytes are those of the array; if
   nothing fails, the answers are exactly those of the array and the device holds its
   bytes.
   */
  method Replay(dev: OffsetScsiDevice, ops: seq<Op>) returns (rs: seq<Response>)
    requires dev.Valid() && dev.View().Coherent() && AllowedRun(dev.View(), dev.device.oracle, ops)
    requires Unharmed(dev.device.oracle, dev.View().disk, Run(dev.View(), dev.device.oracle, ops).state.disk)
    modifies dev.Repr()
    ensures dev.Valid() && dev.View().Coherent() && |rs| == |ops|
    ensures FlatAllowsRun(old(Abs(dev.View())), ops, rs)
    ensures NoDrain(dev.device.oracle, old(dev.View().disk), dev.View().disk) ==>
              dev.View().Image() == FlatRun(old(Abs(dev.View())), ops, rs).bytes
    ensures AllDone(dev.device.oracle, old(dev.View().disk), dev.View().disk) ==>
              && rs == FlatAnswers(old(Abs(dev.View())), ops)
              && dev.View().disk.bytes == FlatRun(old(Abs(dev.View())), ops, rs).bytes
  {
    hide Run, Step, Allowed, AllowedRun, RunsOn, FlatAnswers, FlatRun, FlatAllowsRun, NoFill, NoDrain, AllDone,
         State.Shaped, State.Coherent, State.Image, State.Settled, OffsetScsiDevice.View,
         OffsetScsiDevice.Valid;
    ghost var s, o := dev.View(), dev.device.oracle;
    CoherentIsShaped(s);
    ghost var all := Run(s, o, ops);
    RunStart(s, o, ops);
    rs := [];
    var rest := ops;
    while rest != []
      invariant dev.Valid() && |rs| + |rest| == |ops|
      invariant RunsOn(all, rs, dev.View(), o, rest)
      decreases |rest|
    {
      RunRound(all, rs, dev.View(), o, rest);
      var resp := Perform(dev, rest[0]);
      rs := rs + [resp];
      rest := rest[1..];
    }
    RunRound(all, rs, dev.View(), o, []);
    TraceRefinement(s, o, ops);
    RunGrows(s, o, ops);
    FlushKeepsView(dev.View(), o);
    SplitAnswers(o, s.disk, all.state.disk, BlockCache.Flush(all.state, o).state.disk);
    if AllDone(o, s.disk, all.state.disk) {
      TraceExact(s, o, ops);
    }
    dev.Drop();
  }
}
