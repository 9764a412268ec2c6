/**
 Every run of the cache is a run of a byte array with a cursor: with faults, up to the
 operations that report them; without, answer for answer.
 */
module CacheRefinement {
  import opened Bytes
  import opened BlockCache
  import opened CacheCoherence
  import opened FlatArray

  // ---------- Runs of the cache ----------

  datatype Stepped = Stepped(state: State, response: Response)

  /** What the subtraction in `seek` demands of a caller. */
  predicate Allowed(s: State, op: Op) {
    op.SeekOp? ==> SeekTarget(s, op.from) >= 0
  }

  function FromOutcome(r: Outcome): Stepped {
    Stepped(r.state, Moved(r.data, r.ok))
  }

  function Step(s: State, o: Oracle, op: Op): (r: Stepped)
    requires s.Shaped() && Allowed(s, op)
    ensures r.state.Shaped()
  {
    match op
    case SeekOp(from) => Stepped(s.(idx := SeekTarget(s, from)), At(SeekTarget(s, from)))
    case ReadOp(n) => FromOutcome(Read(s, o, n))
    case WriteOp(bytes) => FromOutcome(Write(s, o, bytes))
    case FlushOp => FromOutcome(Flush(s, o))
    case FillOp => FromOutcome(FillBuf(s, o))
    case ConsumeOp(amt) => Stepped(Consume(s, amt), Moved([], true))
  }

  predicate AllowedRun(s: State, o: Oracle, ops: seq<Op>)
    requires s.Shaped()
    decreases |ops|
  {
    ops == [] || (Allowed(s, ops[0]) && AllowedRun(Step(s, o, ops[0]).state, o, ops[1..]))
  }

  datatype Ran = Ran(state: State, responses: seq<Response>)

  function Run(s: State, o: Oracle, ops: seq<Op>): (r: Ran)
    requires s.Shaped() && AllowedRun(s, o, ops)
    ensures r.state.Shaped() && |r.responses| == |ops|
    decreases |ops|
  {
    if ops == [] then
      Ran(s, [])
    else
      var first := Step(s, o, ops[0]);
      var rest := Run(first.state, o, ops[1..]);
      rest.(responses := [first.response] + rest.responses)
  }

  // ---------- The log only grows ----------

  lemma FlushGrows(s: State, o: Oracle)
    requires s.Shaped()
    ensures Later(s.disk, Flush(s, o).state.disk)
  {
  }

  lemma FillGrows(s: State, o: Oracle)
    requires s.Shaped()
    ensures Later(s.disk, FillBuf(s, o).state.disk)
  {
    hide Flush, WholeBlocks, OffsetIn, BlockOf, BlockStart;
    FlushGrows(s, o);
    var e := Evict(s, o);
    if e.ok && e.state.buffer == [] {
      LoadGrows(e.state, o);
    }
  }

  lemma {:induction false} ReadGrows(s: State, o: Oracle, n: nat)
    requires s.Shaped()
    ensures Later(s.disk, Read(s, o, n).state.disk)
    decreases n
  {
    hide FillBuf, WholeBlocks;
    if n == 0 {
    } else {
      FillGrows(s, o);
      var f := FillBuf(s, o);
      if f.ok {
        ReadGrows(Consume(f.state, 1), o, n - 1);
      }
    }
  }

  lemma PutByteKeepsDisk(s: State, b: byte)
    requires s.Shaped() && s.buffer != []
    ensures PutByte(s, b).disk == s.disk
  {
  }

  lemma {:induction false} WriteGrows(s: State, o: Oracle, data: seq<byte>)
    requires s.Shaped()
    ensures Later(s.disk, Write(s, o, data).state.disk)
    decreases |data|
  {
    hide FillBuf, PutByte, WholeBlocks;
    if data == [] {
    } else {
      FillGrows(s, o);
      var f := FillBuf(s, o);
      if f.ok {
        PutByteKeepsDisk(f.state, data[0]);
        WriteGrows(Consume(PutByte(f.state, data[0]), 1), o, data[1..]);
      }
    }
  }

  lemma StepGrows(s: State, o: Oracle, op: Op)
    requires s.Shaped() && Allowed(s, op)
    ensures Later(s.disk, Step(s, o, op).state.disk)
  {
    hide Read, Write, Flush, FillBuf, WholeBlocks;
    match op
    case ReadOp(n) => ReadGrows(s, o, n);
    case WriteOp(bytes) => WriteGrows(s, o, bytes);
    case FlushOp => FlushGrows(s, o);
    case FillOp => FillGrows(s, o);
    case SeekOp(_) =>
    case ConsumeOp(_) =>
  }

  lemma {:induction false} RunGrows(s: State, o: Oracle, ops: seq<Op>)
    requires s.Shaped() && AllowedRun(s, o, ops)
    ensures Later(s.disk, Run(s, o, ops).state.disk)
    decreases |ops|
  {
    hide Step, WholeBlocks;
    if ops == [] {
    } else {
      StepGrows(s, o, ops[0]);
      RunGrows(Step(s, o, ops[0]).state, o, ops[1..]);
    }
  }

  // ---------- What succeeds, succeeded throughout ----------

  lemma FlushOkDone(s: State, o: Oracle)
    requires s.Shaped() && Flush(s, o).ok
    ensures AllDone(o, s.disk, Flush(s, o).state.disk)
  {
  }

  lemma LoadOkDone(s: State, o: Oracle)
    requires s.Shaped() && s.buffer == [] && LoadBlock(s, o).ok
    ensures AllDone(o, s.disk, LoadBlock(s, o).state.disk)
  {
    hide LoadBlock, Slice, DeviceAddr, BlockOf, OffsetIn;
    LoadCases(s, o);
  }

  lemma FillOkDone(s: State, o: Oracle)
    requires s.Shaped() && FillBuf(s, o).ok
    ensures AllDone(o, s.disk, FillBuf(s, o).state.disk)
  {
    hide Flush, LoadBlock, Slice, WholeBlocks, OffsetIn, BlockOf, BlockStart, AllDone, NoFill, NoDrain;
    FlushGrows(s, o);
    var e, f := Evict(s, o), FillBuf(s, o);
    if e.state.disk == s.disk {
      NoAnswer(o, s.disk, e.state.disk);
    } else {
      FlushOkDone(s, o);
    }
    if e.state.buffer == [] {
      LoadGrows(e.state, o);
      LoadOkDone(e.state, o);
      SplitAnswers(o, s.disk, e.state.disk, f.state.disk);
    }
  }

  lemma {:induction false} ReadOkDone(s: State, o: Oracle, n: nat)
    requires s.Shaped() && Read(s, o, n).ok
    ensures AllDone(o, s.disk, Read(s, o, n).state.disk)
    decreases n
  {
    hide FillBuf, WholeBlocks, AllDone, NoFill, NoDrain;
    if n == 0 {
      NoAnswer(o, s.disk, s.disk);
    } else {
      var f := FillBuf(s, o);
      FillOkDone(s, o);
      FillGrows(s, o);
      ReadGrows(Consume(f.state, 1), o, n - 1);
      ReadOkDone(Consume(f.state, 1), o, n - 1);
      SplitAnswers(o, s.disk, f.state.disk, Read(s, o, n).state.disk);
    }
  }

  lemma {:induction false} WriteOkDone(s: State, o: Oracle, data: seq<byte>)
    requires s.Shaped() && Write(s, o, data).ok
    ensures AllDone(o, s.disk, Write(s, o, data).state.disk)
    decreases |data|
  {
    hide FillBuf, PutByte, WholeBlocks, AllDone, NoFill, NoDrain;
    if data == [] {
      NoAnswer(o, s.disk, s.disk);
    } else {
      var f := FillBuf(s, o);
      var next := Consume(PutByte(f.state, data[0]), 1);
      FillOkDone(s, o);
      FillGrows(s, o);
      PutByteKeepsDisk(f.state, data[0]);
      WriteGrows(next, o, data[1..]);
      WriteOkDone(next, o, data[1..]);
      SplitAnswers(o, s.disk, f.state.disk, Write(s, o, data).state.disk);
    }
  }

  // ---------- One operation ----------

  /** The user's view, addressed like the cache addresses it. */
  function Abs(s: State): Flat
    requires s.Coherent()
  {
    Flat(s.Image(), s.disk.blockSize, s.start, s.idx, true)
  }

  lemma CarriesTrans(o: Oracle, s: State, m: State, t: State, b: seq<byte>, c: seq<byte>, ok: bool)
    requires Carries(o, s, m, b, true) && Carries(o, m, t, c, ok)
    ensures Carries(o, s, t, c, ok)
  {
    hide State.Coherent, State.Image, State.Settled, NoDrain, NoFill, AllDone;
    SplitAnswers(o, s.disk, m.disk, t.disk);
  }

  lemma FillRefines(s: State, o: Oracle)
    requires s.Coherent() && NoFill(o, s.disk, FillBuf(s, o).state.disk)
    ensures var r := FillBuf(s, o);
            && Keeps(o, s, r.state, r.ok)
            && (r.ok <==> AllDone(o, s.disk, r.state.disk) && Abs(s).Has(s.RawIdx()))
            && (r.ok ==> && r.state.Cached() && r.data != []
                         && r.data[0] == s.Image()[Abs(s).PlaceOf(s.RawIdx())])
  {
    hide FillBuf, State.Image, WholeBlocks, OffsetIn, BlockOf, BlockStart;
    FillBufKeepsView(s, o);
  }

  /** Some of what `data` was about to change has been saved, or nothing has. */
  ghost predicate SavedIn(f: Flat, data: seq<byte>, was: seq<byte>, now: seq<byte>)
    requires f.blockSize > 0
  {
    now == was || exists k :: 0 <= k <= |data| && now == Stored(f, data[..k])
  }

  /** What the loop of `read` does, whether or not the device fails on the way. */
  lemma {:induction false} ReadRefines(s: State, o: Oracle, n: nat)
    requires s.Coherent() && NoFill(o, s.disk, Read(s, o, n).state.disk)
    ensures var r := Read(s, o, n);
            && Carries(o, s, r.state, s.Image(), r.ok)
            && r.state.idx == s.idx + |r.data|
            && (r.state.disk.bytes == s.disk.bytes || r.state.disk.bytes == s.Image())
            && Holds(Abs(s), r.data)
            && (r.ok <==> |r.data| == n)
            && (r.ok ==> AllDone(o, s.disk, r.state.disk))
            && (!r.ok && AllDone(o, s.disk, r.state.disk) ==> !Abs(s).Has(s.RawIdx() + |r.data|))
    decreases n
  {
    hide FillBuf, State.Coherent, State.Image, State.Shaped, State.Settled, Holds, Place, Reachable, AllDone,
         NoFill, NoDrain, Later, State.Cached;
    CoherentIsShaped(s);
    HoldsNothing(Abs(s));
    if n == 0 {
      NothingKeeps(s, o);
    } else {
      var f, r := FillBuf(s, o), Read(s, o, n);
      FillGrows(s, o);
      if f.ok {
        var next := Consume(f.state, 1);
        ConsumeShaped(f.state, 1);
        var rest := Read(next, o, n - 1);
        ReadGrows(next, o, n - 1);
        SplitAnswers(o, s.disk, f.state.disk, r.state.disk);
        FillRefines(s, o);
        CursorKeepsView(f.state, next.idx);
        ReadRefines(next, o, n - 1);
        CarriesTrans(o, s, next, r.state, s.Image(), s.Image(), r.ok);
        HoldsCons(Abs(s), f.data[0], rest.data);
      } else {
        FillRefines(s, o);
      }
    }
  }

  lemma SavedNothing(f: Flat, data: seq<byte>, was: seq<byte>, now: seq<byte>)
    requires f.blockSize > 0 && (now == was || now == f.bytes)
    ensures SavedIn(f, data, was, now)
  {
    StoredNothing(f);
    assert data[..0] == [];
  }

  /** What is saved during the rest of a write, or was saved when its first byte was stored. */
  lemma SavedCons(f: Flat, b: byte, rest: seq<byte>, was: seq<byte>, mid: seq<byte>, now: seq<byte>)
    requires f.blockSize > 0 && f.Has(f.RawIdx()) && (mid == was || mid == f.bytes)
    requires SavedIn(f.Put(b), rest, mid, now)
    ensures SavedIn(f, [b] + rest, was, now)
  {
    hide Stored, Place, Reachable;
    var data := [b] + rest;
    if now == mid {
      SavedNothing(f, data, was, now);
    } else {
      var k :| 0 <= k <= |rest| && now == Stored(f.Put(b), rest[..k]);
      assert data[..k + 1] == [b] + rest[..k];
      StoredCons(f, b, rest[..k]);
    }
  }

  lemma PutRefines(s: State, b: byte)
    requires s.Coherent() && s.Cached()
    ensures var t := Consume(PutByte(s, b), 1);
            && t.Coherent() && t.disk == s.disk && t.Settled()
            && Abs(s).Has(s.RawIdx()) && Abs(t) == Abs(s).Put(b)
  {
    hide State.Image, BlockStart, BlockOf, OffsetIn, WholeBlocks, PutByte, Place, Reachable;
    SliceHandsOut(s);
    PutByteChangesOne(s, b);
    CursorKeepsView(PutByte(s, b), s.idx + 1);
  }

  /** What the loop of `write` does: exactly the bytes it got to reach the view. */
  lemma {:induction false} WriteRefines(s: State, o: Oracle, data: seq<byte>)
    requires s.Coherent() && NoFill(o, s.disk, Write(s, o, data).state.disk)
    ensures var r := Write(s, o, data);
            && Carries(o, s, r.state, Stored(Abs(s), r.data), r.ok)
            && r.state.idx == s.idx + |r.data|
            && SavedIn(Abs(s), r.data, s.disk.bytes, r.state.disk.bytes)
            && Covers(Abs(s), |r.data|)
            && (r.ok <==> r.data == data)
            && (r.ok ==> AllDone(o, s.disk, r.state.disk))
            && (!r.ok && AllDone(o, s.disk, r.state.disk) ==> !Abs(s).Has(s.RawIdx() + |r.data|))
    decreases |data|
  {
    hide FillBuf, PutByte, State.Coherent, State.Image, State.Shaped, State.Settled, Stored, Covers, Place,
         Reachable, AllDone, NoFill, NoDrain, Later, State.Cached, SavedIn;
    CoherentIsShaped(s);
    StoredNothing(Abs(s));
    CoversNothing(Abs(s));
    if data == [] {
      NothingKeeps(s, o);
      SavedNothing(Abs(s), [], s.disk.bytes, s.disk.bytes);
    } else {
      var f, r := FillBuf(s, o), Write(s, o, data);
      FillGrows(s, o);
      if f.ok {
        PutByteKeepsDisk(f.state, data[0]);
        var next := Consume(PutByte(f.state, data[0]), 1);
        ConsumeShaped(PutByte(f.state, data[0]), 1);
        var rest := Write(next, o, data[1..]);
        WriteGrows(next, o, data[1..]);
        SplitAnswers(o, s.disk, f.state.disk, r.state.disk);
        FillRefines(s, o);
        PutRefines(f.state, data[0]);
        WriteRefines(next, o, data[1..]);
        CarriesTrans(o, s, next, r.state, next.Image(), Stored(Abs(next), rest.data), r.ok);
        StoredCons(Abs(s), data[0], rest.data);
        CoversCons(Abs(s), Abs(next), |rest.data|);
        SavedCons(Abs(s), data[0], rest.data, s.disk.bytes, f.state.disk.bytes, r.state.disk.bytes);
        assert data == [data[0]] + data[1..];
      } else {
        FillRefines(s, o);
        SavedNothing(Abs(s), [], s.disk.bytes, r.state.disk.bytes);
      }
    }
  }

  lemma SameBlock(size: nat, x: nat, y: nat)
    requires size > 0 && x <= y < x + size - OffsetIn(x, size)
    ensures BlockOf(y, size) == BlockOf(x, size) && OffsetIn(y, size) == OffsetIn(x, size) + (y - x)
  {
    BlockFacts(x, size);
    BlockFacts(y, size);
    BlockUnique(y, size, BlockOf(x, size));
  }

  /** A slice handed out is what the array holds. */
  lemma SliceIsHeld(s: State, data: seq<byte>)
    requires s.Coherent() && HandsOut(s, data) && Abs(s).Has(s.RawIdx())
    ensures Holds(Abs(s), data)
  {
    hide State.Image, WholeBlocks, OffsetIn, BlockOf, BlockStart, DeviceAddr;
    CoherentIsShaped(s);
    var f, size := Abs(s), s.disk.blockSize;
    var at := Place(size, s.RawIdx());
    forall x | s.RawIdx() <= x < s.RawIdx() + |data|
      ensures f.Has(x) && data[x - s.RawIdx()] == f.bytes[f.PlaceOf(x)]
    {
      SameBlock(size, s.RawIdx(), x);
      assert data[x - s.RawIdx()] == s.Image()[at + (x - s.RawIdx())];
    }
  }

  lemma FillAnswers(s: State, o: Oracle)
    requires s.Coherent() && NoFill(o, s.disk, FillBuf(s, o).state.disk)
    ensures var r := FillBuf(s, o);
            && FlatAllows(Abs(s), FillOp, Moved(r.data, r.ok))
            && (AllDone(o, s.disk, r.state.disk) ==> Moved(r.data, r.ok) == FlatAnswer(Abs(s), FillOp))
  {
    hide FillBuf, State.Image, WholeBlocks, OffsetIn, BlockOf, BlockStart, Holds, Covers, Peek, Reach, Place,
         Reachable;
    FillBufKeepsView(s, o);
    CursorBlock(s);
    var f, r := Abs(s), FillBuf(s, o);
    var n := s.disk.blockSize - OffsetIn(s.RawIdx(), s.disk.blockSize);
    if r.ok {
      SliceIsHeld(s, r.data);
      HoldsIsPeek(f, r.data);
      ReachIs(f, n, n);
    } else {
      HoldsNothing(f);
      HoldsIsPeek(f, []);
      if AllDone(o, s.disk, r.state.disk) {
        ReachIs(f, n, 0);
      }
    }
  }

  /** What an operation writes to the array. */
  function Written(op: Op, resp: Response): seq<byte> {
    if op.WriteOp? && resp.Moved? then resp.data else []
  }

  /**
   Each operation is one of the array. The user's bytes become what the array makes of
   them, unless a write-back failed and drained the buffer: then the operation failed,
   and they are the bytes of the device. The device holds what it held, or a state
   of the user's bytes the operation went through.
   */
  lemma StepRefines(s: State, o: Oracle, op: Op)
    requires s.Coherent() && Allowed(s, op) && NoFill(o, s.disk, Step(s, o, op).state.disk)
    ensures var r := Step(s, o, op);
            var next := FlatNext(Abs(s), op, r.response);
            && r.state.Coherent()
            && FlatAllows(Abs(s), op, r.response)
            && SavedIn(Abs(s), Written(op, r.response), s.disk.bytes, r.state.disk.bytes)
            && (NoDrain(o, s.disk, r.state.disk) ==> Abs(r.state) == next && (s.Settled() ==> r.state.Settled()))
            && (!NoDrain(o, s.disk, r.state.disk) ==> r.response.Moved? && !r.response.ok
                                                      && Abs(r.state) == next.(bytes := r.state.disk.bytes))
            && (AllDone(o, s.disk, r.state.disk) ==> r.response == FlatAnswer(Abs(s), op))
            && (op.FlushOp? && r.response.ok ==> r.state.disk.bytes == s.Image())
  {
    hide Read, Write, Flush, FillBuf, State.Coherent, State.Image, State.Settled, WholeBlocks, Stored, SavedIn,
         Covers, Holds, Reach, Peek, Place, Reachable, AllDone, NoFill, NoDrain, Later;
    CoherentIsShaped(s);
    var f, r := Abs(s), Step(s, o, op);
    SavedNothing(f, Written(op, r.response), s.disk.bytes, s.disk.bytes);
    match op
    case ReadOp(n) =>
      ReadRefines(s, o, n);
      SavedNothing(f, [], s.disk.bytes, r.state.disk.bytes);
      HoldsIsPeek(f, r.response.data);
      if AllDone(o, s.disk, r.state.disk) {
        ReachIs(f, n, |r.response.data|);
      }
    case WriteOp(bytes) =>
      WriteRefines(s, o, bytes);
      if AllDone(o, s.disk, r.state.disk) {
        ReachIs(f, |bytes|, |r.response.data|);
      }
    case FlushOp =>
      FlushKeepsView(s, o);
      SavedNothing(f, [], s.disk.bytes, r.state.disk.bytes);
    case FillOp =>
      FillRefines(s, o);
      FillAnswers(s, o);
      SavedNothing(f, [], s.disk.bytes, r.state.disk.bytes);
    case SeekOp(from) =>
      NothingKeeps(s, o);
      CursorKeepsView(s, SeekTarget(s, from));
    case ConsumeOp(amt) =>
      NothingKeeps(s, o);
      CursorKeepsView(s, s.idx + amt);
  }

  // ---------- Whole runs ----------

  /**
   Every run on a device no fault of which touches the buffer gives answers the array
   allows, and ends in the state the array ends in.
   */
  lemma {:induction false} TraceRefinement(s: State, o: Oracle, ops: seq<Op>)
    requires s.Coherent() && AllowedRun(s, o, ops)
    requires Unharmed(o, s.disk, Run(s, o, ops).state.disk)
    ensures var r := Run(s, o, ops);
            && r.state.Coherent()
            && (s.Settled() ==> r.state.Settled())
            && FlatAllowsRun(Abs(s), ops, r.responses)
            && Abs(r.state) == FlatRun(Abs(s), ops, r.responses)
    decreases |ops|
  {
    hide Step, State.Coherent, State.Settled, FlatAllows, FlatNext, NoFill, NoDrain, AllDone, Later,
         State.Image;
    CoherentIsShaped(s);
    if ops == [] {
    } else {
      var first, r := Step(s, o, ops[0]), Run(s, o, ops);
      StepGrows(s, o, ops[0]);
      RunGrows(first.state, o, ops[1..]);
      SplitAnswers(o, s.disk, first.state.disk, r.state.disk);
      StepRefines(s, o, ops[0]);
      TraceRefinement(first.state, o, ops[1..]);
      assert r.responses[1..] == Run(first.state, o, ops[1..]).responses;
    }
  }

  /**
   On a device that does not fail, the answers are those of the array, running into a gap
   included, and do not depend on whether a write drains its buffer.
   */
  lemma {:induction false} TraceExact(s: State, o: Oracle, ops: seq<Op>)
    requires s.Coherent() && AllowedRun(s, o, ops)
    requires AllDone(o, s.disk, Run(s, o, ops).state.disk)
    ensures var r := Run(s, o, ops);
            && r.responses == FlatAnswers(Abs(s), ops)
            && r.state.Coherent()
            && Abs(r.state) == FlatRun(Abs(s), ops, r.responses)
    decreases |ops|
  {
    hide Step, State.Coherent, State.Settled, FlatAllows, FlatNext, FlatAnswer, NoFill, NoDrain, AllDone,
         Later, State.Image;
    CoherentIsShaped(s);
    if ops == [] {
    } else {
      var first, r := Step(s, o, ops[0]), Run(s, o, ops);
      StepGrows(s, o, ops[0]);
      RunGrows(first.state, o, ops[1..]);
      SplitAnswers(o, s.disk, first.state.disk, r.state.disk);
      DoneIsUnharmed(o, s.disk, first.state.disk);
      StepRefines(s, o, ops[0]);
      TraceExact(first.state, o, ops[1..]);
      assert r.responses[1..] == Run(first.state, o, ops[1..]).responses;
    }
  }

  /** After a run and a flush that succeeds, the device itself is the array. */
  lemma FlushedDeviceIsFlat(disk: Disk, start: nat, o: Oracle, ops: seq<Op>)
    requires disk.Valid() && AllowedRun(Fresh(disk, start), o, ops)
    requires Unharmed(o, disk, Run(Fresh(disk, start), o, ops).state.disk)
    ensures var flat := Flat(disk.bytes, disk.blockSize, start, 0, true);
            var r := Run(Fresh(disk, start), o, ops);
            var done := Flush(r.state, o);
            && FlatAllowsRun(flat, ops, r.responses)
            && (done.ok ==> done.state.disk.bytes == FlatRun(flat, ops, r.responses).bytes)
            && (AllDone(o, r.state.disk, done.state.disk) ==> done.ok)
  {
    hide Run, Flush, FlatAllowsRun, FlatRun, NoFill, NoDrain, AllDone;
    var s := Fresh(disk, start);
    TraceRefinement(s, o, ops);
    FlushKeepsView(Run(s, o, ops).state, o);
  }

  // ---------- Runs that lose a block ----------

  /** An array with a cursor, and the bytes that are safe on the device. */
  datatype Backed = Backed(user: Flat, saved: seq<byte>)

  function BackedBy(s: State): Backed
    requires s.Coherent()
  {
    Backed(Abs(s), s.disk.bytes)
  }

  /**
   Before an operation ends, some state of the user's bytes may have been saved; an
   operation that fails may throw the user back to what was saved last. A flush that
   succeeds saves all there is.
   */
  ghost predicate BackedStep(b: Backed, op: Op, resp: Response, c: Backed)
    requires b.user.blockSize > 0
  {
    && FlatAllows(b.user, op, resp)
    && SavedIn(b.user, Written(op, resp), b.saved, c.saved)
    && (op.FlushOp? && resp.ok ==> c.saved == b.user.bytes)
    && var next := FlatNext(b.user, op, resp);
       c.user == next || (resp.Moved? && !resp.ok && c.user == next.(bytes := c.saved))
  }

  ghost predicate BackedRun(b: Backed, ops: seq<Op>, rs: seq<Response>, c: Backed)
    requires b.user.blockSize > 0
    decreases |ops|
  {
    && |rs| == |ops|
    && if ops == [] then b == c
       else exists m: Backed :: && m.user.blockSize > 0 && BackedStep(b, ops[0], rs[0], m)
                                && BackedRun(m, ops[1..], rs[1..], c)
  }

  /**
   Also on a device whose failed write-backs drain the buffer every run is a run of an
   array with a cursor, but one that can lose, with an operation it reports as
   failed, what was written since the device was written last.
   */
  lemma {:induction false} TraceWithLosses(s: State, o: Oracle, ops: seq<Op>)
    requires s.Coherent() && AllowedRun(s, o, ops)
    requires NoFill(o, s.disk, Run(s, o, ops).state.disk)
    ensures var r := Run(s, o, ops);
            && r.state.Coherent()
            && BackedRun(BackedBy(s), ops, r.responses, BackedBy(r.state))
    decreases |ops|
  {
    hide Step, State.Coherent, State.Settled, State.Image, FlatAllows, FlatNext, FlatAnswer, SavedIn, NoFill,
         NoDrain, AllDone, Later;
    CoherentIsShaped(s);
    if ops == [] {
    } else {
      var first, r := Step(s, o, ops[0]), Run(s, o, ops);
      StepGrows(s, o, ops[0]);
      RunGrows(first.state, o, ops[1..]);
      SplitAnswers(o, s.disk, first.state.disk, r.state.disk);
      StepRefines(s, o, ops[0]);
      CoherentIsShaped(first.state);
      TraceWithLosses(first.state, o, ops[1..]);
      assert r.responses[1..] == Run(first.state, o, ops[1..]).responses;
      assert BackedStep(BackedBy(s), ops[0], first.response, BackedBy(first.state));
    }
  }
}
