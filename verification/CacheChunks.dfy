/**
 Reading block slices through `fill_buf` and `consume` is reading byte by byte, for
 every state and every device, faults included.
 */
module CacheChunks {
  import opened Bytes
  import opened BlockCache
  import opened CacheCoherence
  import opened CacheRefinement

  /** On a block that is in the buffer `fill_buf` does nothing but hand out its rest. */
  lemma FillBuffered(s: State, o: Oracle)
    requires s.Shaped() && s.buffer != [] && s.loaded == s.CurBlockNumber()
    ensures FillBuf(s, o) == Outcome(s, s.buffer[s.OffsetFromCurBlock()..], true)
  {
  }

  lemma SliceLength(s: State, o: Oracle)
    requires s.Shaped()
    ensures var f := FillBuf(s, o);
            f.ok ==> && f.state.Shaped()
                     && f.state.buffer != []
                     && f.state.loaded == f.state.CurBlockNumber() == s.CurBlockNumber()
                     && s.OffsetFromCurBlock() == f.state.OffsetFromCurBlock() < s.disk.blockSize
                     && f.data == f.state.buffer[s.OffsetFromCurBlock()..]
  {
    BlockFacts(s.RawIdx(), s.disk.blockSize);
    hide BlockStart, BlockOf, WholeBlocks;
  }

  /**
   `fill_buf` hands out a slice that is not empty and ends where the block ends, and
   handing it out twice changes nothing.
   */
  lemma FillTwice(s: State, o: Oracle)
    requires s.Shaped() && FillBuf(s, o).ok
    ensures var f := FillBuf(s, o);
            && f.data != []
            && s.OffsetFromCurBlock() + |f.data| == s.disk.blockSize
            && FillBuf(f.state, o) == f
  {
    hide FillBuf, BlockStart, BlockOf, OffsetIn, WholeBlocks;
    SliceLength(s, o);
    FillBuffered(FillBuf(s, o).state, o);
  }

  /** Consuming less than the slice stays in the block. */
  lemma ConsumeInside(s: State, k: nat)
    requires s.disk.Valid() && s.OffsetFromCurBlock() + k < s.disk.blockSize
    ensures Consume(s, k).CurBlockNumber() == s.CurBlockNumber()
    ensures Consume(s, k).OffsetFromCurBlock() == s.OffsetFromCurBlock() + k
  {
    var size := s.disk.blockSize;
    var x := s.RawIdx();
    BlockFacts(x, size);
    BlockFacts(x + k, size);
    BlockUnique(x + k, size, BlockOf(x, size));
  }

  /** Reading no further than the slice of `fill_buf` copies from the slice. */
  lemma {:induction false} ReadInSlice(s: State, o: Oracle, k: nat)
    requires s.Shaped() && FillBuf(s, o).ok && 0 < k <= |FillBuf(s, o).data|
    ensures Read(s, o, k) == Outcome(Consume(FillBuf(s, o).state, k), FillBuf(s, o).data[..k], true)
    decreases k
  {
    hide FillBuf, BlockStart, BlockOf, OffsetIn, WholeBlocks, State.CurBlockRawIdx, State.CurBlockNumber,
         State.OffsetFromCurBlock;
    SliceLength(s, o);
    var f := FillBuf(s, o);
    var next := Consume(f.state, 1);
    if k == 1 {
    } else {
      ConsumeInside(f.state, 1);
      FillBuffered(next, o);
      ReadInSlice(next, o, k - 1);
      assert f.data[..k] == [f.data[0]] + FillBuf(next, o).data[..k - 1];
    }
  }

  /** A read in one go is a read of the first part and, if that succeeds, of the rest. */
  lemma {:induction false} ReadSplit(s: State, o: Oracle, a: nat, b: nat)
    requires s.Shaped()
    ensures var first := Read(s, o, a);
            Read(s, o, a + b) ==
            if first.ok && |first.data| == a then
              var rest := Read(first.state, o, b);
              rest.(data := first.data + rest.data)
            else first
    decreases a
  {
    hide FillBuf, WholeBlocks;
    if a == 0 {
    } else {
      var f := FillBuf(s, o);
      if f.ok {
        ReadSplit(Consume(f.state, 1), o, a - 1, b);
      }
    }
  }

  // ---------- Chunked reading ----------

  function Sum(amts: seq<nat>): nat {
    if amts == [] then 0 else amts[0] + Sum(amts[1..])
  }

  /** Each chunk takes no more than its slice holds. */
  predicate ChunksFit(s: State, o: Oracle, amts: seq<nat>)
    requires s.Shaped()
    decreases |amts|
  {
    amts == [] ||
    (var f := FillBuf(s, o);
     f.ok ==> amts[0] <= |f.data| && ChunksFit(Consume(f.state, amts[0]), o, amts[1..]))
  }

  /** Takes `amts[0]` bytes of a slice and consumes them, then `amts[1]`, and so on. */
  function ReadChunks(s: State, o: Oracle, amts: seq<nat>): (r: Outcome)
    requires s.Shaped() && ChunksFit(s, o, amts)
    decreases |amts|
  {
    if amts == [] then
      Outcome(s, [], true)
    else
      var f := FillBuf(s, o);
      if !f.ok then f
      else
        var rest := ReadChunks(Consume(f.state, amts[0]), o, amts[1..]);
        rest.(data := f.data[..amts[0]] + rest.data)
  }

  /** The last chunk takes something, or there is none. */
  predicate EndsTaking(amts: seq<nat>) {
    amts == [] || amts[|amts| - 1] > 0
  }

  /** What a read and one more `fill_buf` make of the cache; the data is what was read. */
  function ThenFilled(r: Outcome, o: Oracle): Outcome
    requires r.state.Shaped()
  {
    if r.ok then FillBuf(r.state, o).(data := r.data) else r
  }

  function Chunked(s: State, o: Oracle, n: nat, taking: bool): Outcome
    requires s.Shaped()
  {
    if taking then Read(s, o, n) else ThenFilled(Read(s, o, n), o)
  }

  /** Taking nothing from the first slice. */
  lemma TakeNothing(s: State, o: Oracle, n: nat, taking: bool)
    requires s.Shaped() && FillBuf(s, o).ok && (taking ==> n > 0)
    ensures Chunked(FillBuf(s, o).state, o, n, taking) == Chunked(s, o, n, taking)
  {
    hide FillBuf, WholeBlocks;
    FillTwice(s, o);
  }

  /** Taking some of the first slice. */
  lemma TakeSome(s: State, o: Oracle, k: nat, n: nat, taking: bool)
    requires s.Shaped() && FillBuf(s, o).ok && 0 < k <= |FillBuf(s, o).data|
    requires Consume(FillBuf(s, o).state, k).Shaped()
    ensures var rest := Chunked(Consume(FillBuf(s, o).state, k), o, n, taking);
            Chunked(s, o, k + n, taking) == rest.(data := FillBuf(s, o).data[..k] + rest.data)
  {
    hide FillBuf, WholeBlocks, Read;
    ReadInSlice(s, o, k);
    ReadSplit(s, o, k, n);
  }

  lemma EndsTakingRest(amts: seq<nat>)
    requires amts != []
    ensures amts[1..] != [] ==> (EndsTaking(amts) <==> EndsTaking(amts[1..]))
    ensures amts[1..] == [] ==> (EndsTaking(amts) <==> amts[0] > 0)
  {
  }

  lemma {:induction false} SumPositive(amts: seq<nat>)
    ensures amts != [] && EndsTaking(amts) ==> Sum(amts) > 0
    decreases |amts|
  {
    if |amts| <= 1 {
    } else {
      SumPositive(amts[1..]);
    }
  }

  /**
   However the chunks fall, reading them is one read, in data, state and commands to the
   device; only where the last chunk takes nothing, its slice has been filled on top.
   */
  lemma {:induction false} ChunksAreRead(s: State, o: Oracle, amts: seq<nat>)
    requires s.Shaped() && ChunksFit(s, o, amts)
    ensures ReadChunks(s, o, amts)
         == if EndsTaking(amts) then Read(s, o, Sum(amts)) else ThenFilled(Read(s, o, Sum(amts)), o)
    decreases |amts|
  {
    hide FillBuf, WholeBlocks;
    if amts == [] {
    } else {
      var f := FillBuf(s, o);
      var k, rest := amts[0], amts[1..];
      EndsTakingRest(amts);
      if f.ok {
        ConsumeShaped(f.state, k);
        ChunksAreRead(Consume(f.state, k), o, rest);
        if k == 0 {
          assert Consume(f.state, 0) == f.state && f.data[..0] == [];
          SumPositive(amts);
          if rest == [] {
            assert ReadChunks(f.state, o, []).data == [];
          } else {
            TakeNothing(s, o, Sum(rest), EndsTaking(rest));
          }
        } else {
          TakeSome(s, o, k, Sum(rest), EndsTaking(rest));
        }
      } else {
        SumPositive(amts);
      }
    }
  }

  /** Data, cursor and view are those of one read, for chunks of any length their slices allow. */
  lemma ChunksAgree(s: State, o: Oracle, amts: seq<nat>)
    requires s.Coherent() && ChunksFit(s, o, amts) && Unharmed(o, s.disk, ReadChunks(s, o, amts).state.disk)
    ensures var c, r := ReadChunks(s, o, amts), Read(s, o, Sum(amts));
            && c.data == r.data && c.state.idx == r.state.idx
            && c.state.Coherent() && r.state.Coherent() && c.state.Image() == r.state.Image() == s.Image()
  {
    hide FillBuf, Read, ReadChunks, ChunksFit, EndsTaking, State.Coherent, State.Image, NoFill, NoDrain, AllDone, Later;
    CoherentIsShaped(s);
    ChunksAreRead(s, o, amts);
    var c, r := ReadChunks(s, o, amts), Read(s, o, Sum(amts));
    ReadGrows(s, o, Sum(amts));
    if EndsTaking(amts) || !r.ok {
      ReadRefines(s, o, Sum(amts));
    } else {
      FillGrows(r.state, o);
      SplitAnswers(o, s.disk, r.state.disk, c.state.disk);
      ReadRefines(s, o, Sum(amts));
      FillRefines(r.state, o);
    }
  }
}
