/** What whole runs of the drive table keep: each slot is on its own. */
module DriveRuns {
  import opened Bytes
  import opened Wrappers
  import opened BlockCache
  import opened CacheCoherence
  import F = FlatArray
  import opened CacheRefinement
  import opened CacheFrame
  import opened AddressCut
  import opened Sectors
  import opened DriveTables

  // ---------- A slot and the rest of the table ----------

  /** What an operation is to the slot it is about. */
  function AtSlot(op: DriveTables.Op): SlotOp
    requires !op.SetDefault?
  {
    match op
    case AddFs(drive) => Put(drive)
    case On(_, request) => Ask(request)
    case World(_, up) => Plug(up)
  }

  /** The operations of a run that are about slot `p`. */
  function Own(t: Table, ops: seq<DriveTables.Op>, p: nat): seq<SlotOp>
    decreases |ops|
  {
    if ops == [] then []
    else
      (if Target(t, ops[0]) == Some(p) then [AtSlot(ops[0])] else [])
      + Own(DriveTables.Step(t, ops[0]).table, ops[1..], p)
  }

  /** The answers of a run to the requests to slot `p`. */
  function AnswersAt(t: Table, ops: seq<DriveTables.Op>, p: nat): seq<Answer>
    decreases |ops|
  {
    if ops == [] then []
    else
      var first := DriveTables.Step(t, ops[0]);
      (if Target(t, ops[0]) == Some(p) && ops[0].On? then [first.answer] else [])
      + AnswersAt(first.table, ops[1..], p)
  }

  lemma StepAtSlot(t: Table, op: DriveTables.Op, p: nat)
    requires p < SLOTS
    ensures var r := DriveTables.Step(t, op);
            && (Target(t, op) == Some(p) ==>
                  && r.table.slots[p] == SlotStep(t.slots[p], AtSlot(op))
                  && (op.On? ==> r.answer == Serve(t.slots[p], op.request).answer))
            && (Target(t, op) != Some(p) ==> r.table.slots[p] == t.slots[p])
  {
    hide Serve, Scan;
  }

  lemma AtSlotAsks(op: DriveTables.Op)
    requires !op.SetDefault?
    ensures op.On? <==> AtSlot(op).Ask?
    ensures op.On? ==> AtSlot(op).request == op.request
  {
  }

  /**
   In every run, the drive in slot `p` and the answers to its requests are those of the
   operations about slot `p` alone, whatever the run does to the other slots.
   */
  lemma {:induction false} SlotAlone(t: Table, ops: seq<DriveTables.Op>, p: nat)
    requires p < SLOTS
    ensures DriveTables.Run(t, ops).table.slots[p] == SlotRun(t.slots[p], Own(t, ops, p))
    ensures AnswersAt(t, ops, p) == SlotAnswers(t.slots[p], Own(t, ops, p))
    decreases |ops|
  {
    hide DriveTables.Step, SlotStep, Serve, Target, AtSlot;
    if ops == [] {
    } else {
      StepAtSlot(t, ops[0], p);
      var u := DriveTables.Step(t, ops[0]).table;
      var rest := Own(u, ops[1..], p);
      SlotAlone(u, ops[1..], p);
      if Target(t, ops[0]) == Some(p) {
        assert ([AtSlot(ops[0])] + rest)[1..] == rest;
        AtSlotAsks(ops[0]);
      } else {
        assert [] + rest == rest;
      }
    }
  }

  // ---------- Empty slots, and slots that are taken ----------

  /** No drive is put in the slot. */
  predicate NoPut(ops: seq<SlotOp>) {
    forall i :: 0 <= i < |ops| ==> !ops[i].Put?
  }

  predicate NotReady(answer: Answer) {
    answer == Stat(NoInit) || answer == DriveTables.Moved([], ResNotReady)
  }

  lemma {:induction false} EmptyStaysEmpty(ops: seq<SlotOp>)
    requires NoPut(ops)
    ensures SlotRun(None, ops).None?
    ensures forall a :: a in SlotAnswers(None, ops) ==> NotReady(a)
    decreases |ops|
  {
    if ops == [] {
    } else {
      assert !ops[0].Put?;
      EmptyStaysEmpty(ops[1..]);
    }
  }

  /**
   After a status that was not `Ready` every request to the slot is answered `ResNotReady`
   or `NoInit`, along every run, until `add_fs` puts a drive there.
   */
  lemma ClearedUntilAdd(t: Table, pdrv: nat, ops: seq<DriveTables.Op>)
    requires var r := DriveTables.Step(t, On(pdrv, Status));
             && r.answer.Stat? && r.answer.status != Ready
             && NoPut(Own(r.table, ops, GetIdx(t, pdrv)))
    ensures var u, p := DriveTables.Step(t, On(pdrv, Status)).table, GetIdx(t, pdrv);
            && p < SLOTS && u.slots[p].None?
            && DriveTables.Run(u, ops).table.slots[p].None?
            && forall a :: a in AnswersAt(u, ops, p) ==> NotReady(a)
  {
    hide DriveTables.Run, Own, AnswersAt;
    var u, p := DriveTables.Step(t, On(pdrv, Status)).table, GetIdx(t, pdrv);
    SlotAlone(u, ops, p);
    EmptyStaysEmpty(Own(u, ops, p));
  }

  /** The world does not pull the drive. */
  predicate NotPulled(ops: seq<SlotOp>) {
    forall i :: 0 <= i < |ops| ==> ops[i] != Plug(false)
  }

  lemma TakenStep(t: Table, op: DriveTables.Op, p: nat)
    requires p < SLOTS && t.slots[p].Some? && t.slots[p].value.connected
    requires Target(t, op) == Some(p) ==> AtSlot(op) != Plug(false)
    ensures Target(t, op) == Some(p) ==> !AtSlot(op).Put?
    ensures var s := DriveTables.Step(t, op).table.slots[p];
            s.Some? && s.value.connected && s.value.oracle == t.slots[p].value.oracle
  {
    hide ReadSectors, WriteSectors, Flush, Scan;
    StepAtSlot(t, op, p);
    AddSlotIs(t);
  }

  /** `add_fs` never displaces a connected drive, whatever the run does. */
  lemma {:induction false} ConnectedStays(t: Table, ops: seq<DriveTables.Op>, p: nat)
    requires p < SLOTS && t.slots[p].Some? && t.slots[p].value.connected
    requires NotPulled(Own(t, ops, p))
    ensures NoPut(Own(t, ops, p))
    ensures var s := DriveTables.Run(t, ops).table.slots[p];
            s.Some? && s.value.connected && s.value.oracle == t.slots[p].value.oracle
    decreases |ops|
  {
    hide DriveTables.Step, Target, AtSlot;
    if ops == [] {
    } else {
      var u := DriveTables.Step(t, ops[0]).table;
      var own, rest := Own(t, ops, p), Own(u, ops[1..], p);
      if Target(t, ops[0]) == Some(p) {
        assert own[0] == AtSlot(ops[0]) && own[1..] == rest;
      } else {
        assert own == rest;
      }
      TakenStep(t, ops[0], p);
      ConnectedStays(u, ops[1..], p);
    }
  }

  // ---------- Requests are operations of the cache ----------

  /** What a request asks of the cache, on a device with blocks of `size` bytes. */
  function OpOf(request: Request, size: nat): F.Op
    requires !request.Status?
  {
    match request
    case ReadAt(_, count) => F.ReadOp(BlockStart(size, count))
    case WriteAt(_, data) => F.WriteOp(data)
    case Sync => F.FlushOp
  }

  /** Where the cursor is put for it. */
  function CursorFor(request: Request, size: nat, idx: nat): nat
    requires !request.Status?
  {
    match request
    case ReadAt(sector, _) => BlockStart(size, sector)
    case WriteAt(sector, _) => BlockStart(size, sector)
    case Sync => idx
  }

  function Before(s: State, request: Request): State
    requires !request.Status?
  {
    s.(idx := CursorFor(request, s.disk.blockSize, s.idx))
  }

  /** What the caller is told: not what a read got that failed on the way. */
  function Told(request: Request, data: seq<byte>, ok: bool): Answer {
    DriveTables.Moved(if request.ReadAt? && ok then data else [], if ok then ResOk else ResError)
  }

  lemma StatusKeeps(d: Drive)
    ensures Serve(Some(d), Status) == if d.connected then Served(Some(d), Stat(Ready)) else Served(None, Stat(NoDisk))
  {
  }

  lemma ServeIsStep(d: Drive, request: Request)
    requires !request.Status?
    ensures var size := d.state.disk.blockSize;
            Before(d.state, request).Shaped() && Allowed(Before(d.state, request), OpOf(request, size))
    ensures var r := CacheRefinement.Step(Before(d.state, request), d.oracle, OpOf(request, d.state.disk.blockSize));
            && r.response.Moved?
            && Serve(Some(d), request)
               == Served(Some(d.(state := r.state)), Told(request, r.response.data, r.response.ok))
  {
    hide Read, Write, Flush, BlockStart, WholeBlocks;
  }

  /** Requests leave the drive with a longer log. */
  lemma ServeGrows(d: Drive, request: Request)
    requires Serve(Some(d), request).slot.Some?
    ensures var e := Serve(Some(d), request).slot.value;
            Later(d.state.disk, e.state.disk) && e.oracle == d.oracle
  {
    hide Serve, CacheRefinement.Step;
    if request.Status? {
      StatusKeeps(d);
    } else {
      ServeIsStep(d, request);
      StepGrows(Before(d.state, request), d.oracle, OpOf(request, d.state.disk.blockSize));
    }
  }

  lemma {:induction false} SlotGrows(d: Drive, ops: seq<SlotOp>)
    requires NoPut(ops) && SlotRun(Some(d), ops).Some?
    ensures var e := SlotRun(Some(d), ops).value;
            Later(d.state.disk, e.state.disk) && e.oracle == d.oracle
    decreases |ops|
  {
    hide Serve;
    if ops == [] {
    } else {
      assert !ops[0].Put?;
      var m := SlotStep(Some(d), ops[0]);
      if m.None? {
        EmptyStaysEmpty(ops[1..]);
      } else {
        if ops[0].Ask? {
          ServeGrows(d, ops[0].request);
        }
        SlotGrows(m.value, ops[1..]);
      }
    }
  }

  // ---------- A slot is an array of sectors ----------

  /** An array can answer a request like this, and become `g` with it. */
  ghost predicate ArrayServes(f: F.Flat, request: Request, answer: Answer, g: F.Flat)
    requires f.blockSize > 0
  {
    if request.Status? then answer == Stat(Ready) && g == f
    else
      var at, op := f.(idx := CursorFor(request, f.blockSize, f.idx)), OpOf(request, f.blockSize);
      exists data: seq<byte>, ok: bool ::
        answer == Told(request, data, ok) && F.FlatAllows(at, op, F.Moved(data, ok))
        && g == F.FlatNext(at, op, F.Moved(data, ok))
  }

  /** So can an array that may lose, with a request it answers with an error, what is not saved. */
  ghost predicate BackedServes(b: Backed, request: Request, answer: Answer, c: Backed)
    requires b.user.blockSize > 0
  {
    if request.Status? then answer == Stat(Ready) && c == b
    else
      var at := b.(user := b.user.(idx := CursorFor(request, b.user.blockSize, b.user.idx)));
      exists data: seq<byte>, ok: bool ::
        answer == Told(request, data, ok) && BackedStep(at, OpOf(request, b.user.blockSize), F.Moved(data, ok), c)
  }

  /** The requests of the operations get answers an array can give, which ends as `g`. */
  ghost predicate ArrayRun(f: F.Flat, ops: seq<SlotOp>, answers: seq<Answer>, g: F.Flat)
    requires f.blockSize > 0
    decreases |ops|
  {
    if ops == [] then answers == [] && f == g
    else if ops[0].Plug? then ArrayRun(f, ops[1..], answers, g)
    else
      && ops[0].Ask? && answers != []
      && exists m: F.Flat :: m.blockSize > 0 && ArrayServes(f, ops[0].request, answers[0], m)
                             && ArrayRun(m, ops[1..], answers[1..], g)
  }

  /** The same for an array that may lose what is not saved. */
  ghost predicate LossyRun(b: Backed, ops: seq<SlotOp>, answers: seq<Answer>, c: Backed)
    requires b.user.blockSize > 0
    decreases |ops|
  {
    if ops == [] then answers == [] && b == c
    else if ops[0].Plug? then LossyRun(b, ops[1..], answers, c)
    else
      && ops[0].Ask? && answers != []
      && exists m: Backed :: m.user.blockSize > 0 && BackedServes(b, ops[0].request, answers[0], m)
                             && LossyRun(m, ops[1..], answers[1..], c)
  }

  lemma BeforeKeepsView(s: State, request: Request)
    requires s.Coherent() && !request.Status?
    ensures var t := Before(s, request);
            && t.Coherent() && t.Image() == s.Image() && t.disk == s.disk && t.start == s.start && t.Shaped()
            && Abs(t) == Abs(s).(idx := CursorFor(request, s.disk.blockSize, s.idx))
  {
    hide CursorFor;
    CursorKeepsView(s, CursorFor(request, s.disk.blockSize, s.idx));
  }

  lemma ServeIsArray(d: Drive, request: Request)
    requires var r := Serve(Some(d), request);
             && d.state.Coherent() && r.slot.Some?
             && NoFill(d.oracle, d.state.disk, r.slot.value.state.disk)
    ensures var r := Serve(Some(d), request);
            var e := r.slot.value.state;
            && e.Coherent() && Abs(d.state).blockSize > 0 && Abs(e).blockSize > 0
            && BackedServes(BackedBy(d.state), request, r.answer, BackedBy(e))
            && (NoDrain(d.oracle, d.state.disk, e.disk) ==> ArrayServes(Abs(d.state), request, r.answer, Abs(e)))
  {
    hide Serve, CacheRefinement.Step, State.Coherent, State.Image, State.Settled, NoFill, NoDrain, AllDone,
         F.FlatAllows, F.FlatNext, F.FlatAnswer, SavedIn, CursorFor, OpOf, Told, Before;
    var s, o := d.state, d.oracle;
    CoherentIsShaped(s);
    if request.Status? {
      StatusKeeps(d);
    } else {
      ServeIsStep(d, request);
      BeforeKeepsView(s, request);
      var at, op := Before(s, request), OpOf(request, s.disk.blockSize);
      StepRefines(at, o, op);
      var r := CacheRefinement.Step(at, o, op);
      CoherentIsShaped(r.state);
      assert r.response == F.Moved(r.response.data, r.response.ok);
      assert BackedStep(BackedBy(at), op, r.response, BackedBy(r.state));
    }
  }

  /**
   In every run a drive that stays in its slot is an array of sectors that can lose, with
   a request it answers with an error, what was written since the device was written last.
   If no write-back drained its buffer it loses nothing.
   */
  lemma {:induction false} SlotIsArray(d: Drive, ops: seq<SlotOp>)
    requires NoPut(ops) && d.state.Coherent() && SlotRun(Some(d), ops).Some?
    requires NoFill(d.oracle, d.state.disk, SlotRun(Some(d), ops).value.state.disk)
    ensures var e, answers := SlotRun(Some(d), ops).value.state, SlotAnswers(Some(d), ops);
            && e.Coherent() && Abs(d.state).blockSize > 0
            && LossyRun(BackedBy(d.state), ops, answers, BackedBy(e))
            && (NoDrain(d.oracle, d.state.disk, e.disk) ==> ArrayRun(Abs(d.state), ops, answers, Abs(e)))
    decreases |ops|
  {
    hide Serve, State.Coherent, State.Image, NoFill, NoDrain, AllDone, Later, ArrayServes, BackedServes;
    CoherentIsShaped(d.state);
    if ops == [] {
    } else {
      assert !ops[0].Put?;
      var m := SlotStep(Some(d), ops[0]);
      if m.None? {
        EmptyStaysEmpty(ops[1..]);
      } else if ops[0].Ask? {
        var e := SlotRun(Some(d), ops).value;
        ServeGrows(d, ops[0].request);
        SlotGrows(m.value, ops[1..]);
        SplitAnswers(d.oracle, d.state.disk, m.value.state.disk, e.state.disk);
        ServeIsArray(d, ops[0].request);
        SlotIsArray(m.value, ops[1..]);
        var answers, rest := SlotAnswers(Some(d), ops), SlotAnswers(m, ops[1..]);
        assert answers[0] == Serve(Some(d), ops[0].request).answer && answers[1..] == rest;
      } else {
        SlotIsArray(m.value, ops[1..]);
        assert [] + SlotAnswers(m, ops[1..]) == SlotAnswers(m, ops[1..]);
      }
    }
  }

  /** The same for a slot of a table, whatever a run does to the other slots. */
  lemma DriveIsArray(t: Table, ops: seq<DriveTables.Op>, p: nat)
    requires p < SLOTS && t.slots[p].Some? && t.slots[p].value.state.Coherent()
    requires NoPut(Own(t, ops, p)) && DriveTables.Run(t, ops).table.slots[p].Some?
    requires NoFill(t.slots[p].value.oracle, t.slots[p].value.state.disk,
                    DriveTables.Run(t, ops).table.slots[p].value.state.disk)
    ensures var s, e := t.slots[p].value.state, DriveTables.Run(t, ops).table.slots[p].value.state;
            && e.Coherent() && Abs(s).blockSize > 0
            && LossyRun(BackedBy(s), Own(t, ops, p), AnswersAt(t, ops, p), BackedBy(e))
            && (NoDrain(t.slots[p].value.oracle, s.disk, e.disk)
                ==> ArrayRun(Abs(s), Own(t, ops, p), AnswersAt(t, ops, p), Abs(e)))
  {
    hide DriveTables.Run, Own, AnswersAt, SlotRun, SlotAnswers, State.Coherent, NoFill, NoDrain, ArrayRun, LossyRun;
    SlotAlone(t, ops, p);
    SlotIsArray(t.slots[p].value, Own(t, ops, p));
  }

  // ---------- Requests answered without an error harmed nothing ----------

  lemma ServedIsDone(d: Drive, request: Request)
    requires var r := Serve(Some(d), request);
             r.slot.Some? && (r.answer.Moved? ==> r.answer.result != ResError)
    ensures AllDone(d.oracle, d.state.disk, Serve(Some(d), request).slot.value.state.disk)
  {
    hide Read, Write, Flush, WholeBlocks, BlockStart, AllDone;
    var s, o := d.state, d.oracle;
    match request
    case Status => NoAnswer(o, s.disk, s.disk);
    case ReadAt(sector, count) => ReadOkDone(SeekSector(s, sector), o, BlockStart(s.disk.blockSize, count));
    case WriteAt(sector, data) => WriteOkDone(SeekSector(s, sector), o, data);
    case Sync => FlushOkDone(s, o);
  }

  /** No request was answered with an error. */
  predicate NoError(answers: seq<Answer>) {
    forall k :: 0 <= k < |answers| && answers[k].Moved? ==> answers[k].result != ResError
  }

  lemma {:induction false} SlotDone(d: Drive, ops: seq<SlotOp>)
    requires NoPut(ops) && SlotRun(Some(d), ops).Some? && NoError(SlotAnswers(Some(d), ops))
    ensures AllDone(d.oracle, d.state.disk, SlotRun(Some(d), ops).value.state.disk)
    decreases |ops|
  {
    hide Serve, NoFill, NoDrain, AllDone, Later;
    if ops == [] {
      NoAnswer(d.oracle, d.state.disk, d.state.disk);
    } else {
      assert !ops[0].Put?;
      var m := SlotStep(Some(d), ops[0]);
      var answers, rest := SlotAnswers(Some(d), ops), SlotAnswers(m, ops[1..]);
      if m.None? {
        EmptyStaysEmpty(ops[1..]);
      } else if ops[0].Ask? {
        assert answers[0] == Serve(Some(d), ops[0].request).answer && answers[1..] == rest;
        ServeGrows(d, ops[0].request);
        SlotGrows(m.value, ops[1..]);
        SplitAnswers(d.oracle, d.state.disk, m.value.state.disk, SlotRun(Some(d), ops).value.state.disk);
        ServedIsDone(d, ops[0].request);
        SlotDone(m.value, ops[1..]);
      } else {
        assert [] + rest == rest;
        SlotDone(m.value, ops[1..]);
      }
    }
  }

  /** If no request to the drive in slot `p` was answered with an error, no fault touched its buffer. */
  lemma AnsweredIsUnharmed(t: Table, ops: seq<DriveTables.Op>, p: nat)
    requires p < SLOTS && t.slots[p].Some? && NoPut(Own(t, ops, p))
    requires DriveTables.Run(t, ops).table.slots[p].Some? && NoError(AnswersAt(t, ops, p))
    ensures Unharmed(t.slots[p].value.oracle, t.slots[p].value.state.disk,
                     DriveTables.Run(t, ops).table.slots[p].value.state.disk)
  {
    hide DriveTables.Run, Own, AnswersAt, SlotRun, SlotAnswers, NoFill, NoDrain, NoError, AllDone;
    SlotAlone(t, ops, p);
    SlotDone(t.slots[p].value, Own(t, ops, p));
    DoneIsUnharmed(t.slots[p].value.oracle, t.slots[p].value.state.disk,
                   DriveTables.Run(t, ops).table.slots[p].value.state.disk);
  }

  // ---------- What no request writes stays ----------

  /** No byte the request writes is kept at `i`. */
  predicate RequestSpares(request: Request, start: nat, size: nat, i: nat)
    requires size > 0
  {
    request.WriteAt? ==> Spares(size, start + BlockStart(size, request.sector), |request.data|, i)
  }

  /** No byte the operations write to the drive is kept at `i`. */
  predicate WritesSpare(ops: seq<SlotOp>, start: nat, size: nat, i: nat)
    requires size > 0
  {
    forall k :: 0 <= k < |ops| && ops[k].Ask? ==> RequestSpares(ops[k].request, start, size, i)
  }

  ghost predicate SameDrive(s: State, t: State)
    requires s.Coherent()
  {
    t.Coherent() && t.start == s.start && t.disk.blockSize == s.disk.blockSize && |t.Image()| == |s.Image()|
  }

  /** From `s` to `t` byte `i` stays, if it is on the device, or if nothing was lost. */
  ghost predicate ByteStays(o: Oracle, s: State, t: State, i: nat)
    requires s.Coherent() && SameDrive(s, t)
  {
    i < |s.Image()| ==>
      && (NoDrain(o, s.disk, t.disk) ==> t.Image()[i] == s.Image()[i])
      && (Pinned(s, i, s.Image()[i]) ==> Pinned(t, i, s.Image()[i]))
  }

  lemma ByteStaysTrans(o: Oracle, s: State, m: State, t: State, i: nat)
    requires s.Coherent() && SameDrive(s, m) && SameDrive(m, t) && ByteStays(o, s, m, i) && ByteStays(o, m, t, i)
    requires Later(s.disk, m.disk) && Later(m.disk, t.disk)
    ensures SameDrive(s, t) && ByteStays(o, s, t, i)
  {
    hide State.Coherent, State.Image, NoDrain;
    SplitAnswers(o, s.disk, m.disk, t.disk);
  }

  lemma StepByte(s: State, o: Oracle, op: F.Op, i: nat)
    requires s.Coherent() && Allowed(s, op) && NoFill(o, s.disk, CacheRefinement.Step(s, o, op).state.disk)
    ensures s.disk.blockSize > 0 && SameDrive(s, CacheRefinement.Step(s, o, op).state)
    ensures (op.WriteOp? ==> Spares(s.disk.blockSize, s.RawIdx(), |op.bytes|, i))
            ==> ByteStays(o, s, CacheRefinement.Step(s, o, op).state, i)
  {
    hide CacheRefinement.Step, State.Coherent, State.Image, State.Settled, F.Stored, NoFill, NoDrain, AllDone, Place;
    CoherentIsShaped(s);
    StepRefines(s, o, op);
    if (op.WriteOp? ==> Spares(s.disk.blockSize, s.RawIdx(), |op.bytes|, i)) && i < |s.Image()| {
      StoredElsewhere(Abs(s), Written(op, CacheRefinement.Step(s, o, op).response), i);
      if Pinned(s, i, s.Image()[i]) {
        StepPinned(s, o, op, i, s.Image()[i]);
      }
    }
  }

  lemma ServeByte(d: Drive, request: Request, i: nat)
    requires var r := Serve(Some(d), request);
             && d.state.Coherent() && r.slot.Some?
             && NoFill(d.oracle, d.state.disk, r.slot.value.state.disk)
    ensures var e := Serve(Some(d), request).slot.value.state;
            && d.state.disk.blockSize > 0 && SameDrive(d.state, e)
            && (RequestSpares(request, d.state.start, d.state.disk.blockSize, i) ==> ByteStays(d.oracle, d.state, e, i))
  {
    hide Serve, CacheRefinement.Step, State.Coherent, State.Image, NoFill, NoDrain, Spares;
    CoherentIsShaped(d.state);
    if request.Status? {
      StatusKeeps(d);
    } else {
      ServeIsStep(d, request);
      BeforeKeepsView(d.state, request);
      StepByte(Before(d.state, request), d.oracle, OpOf(request, d.state.disk.blockSize), i);
    }
  }

  lemma {:induction false} SlotByte(d: Drive, ops: seq<SlotOp>, i: nat)
    requires NoPut(ops) && d.state.Coherent() && SlotRun(Some(d), ops).Some?
    requires NoFill(d.oracle, d.state.disk, SlotRun(Some(d), ops).value.state.disk)
    ensures var e := SlotRun(Some(d), ops).value.state;
            && d.state.disk.blockSize > 0 && SameDrive(d.state, e)
            && (WritesSpare(ops, d.state.start, d.state.disk.blockSize, i) ==> ByteStays(d.oracle, d.state, e, i))
    decreases |ops|
  {
    hide Serve, State.Coherent, State.Image, NoFill, NoDrain, AllDone, Later, RequestSpares, Pinned;
    CoherentIsShaped(d.state);
    if ops == [] {
    } else {
      assert !ops[0].Put?;
      var m := SlotStep(Some(d), ops[0]);
      if m.None? {
        EmptyStaysEmpty(ops[1..]);
      } else if ops[0].Ask? {
        var e := SlotRun(Some(d), ops).value;
        ServeGrows(d, ops[0].request);
        SlotGrows(m.value, ops[1..]);
        SplitAnswers(d.oracle, d.state.disk, m.value.state.disk, e.state.disk);
        ServeByte(d, ops[0].request, i);
        SlotByte(m.value, ops[1..], i);
        if WritesSpare(ops, d.state.start, d.state.disk.blockSize, i) {
          ByteStaysTrans(d.oracle, d.state, m.value.state, e.state, i);
        }
      } else {
        SlotByte(m.value, ops[1..], i);
      }
    }
  }

  /** No byte the operations write to the drive is kept where one of the `n` bytes from address `x` on is. */
  predicate WritesApart(ops: seq<SlotOp>, start: nat, size: nat, x: nat, n: nat)
    requires size > 0
  {
    forall y :: x <= y < x + n ==> WritesSpare(ops, start, size, Place(size, y))
  }

  /** What the request writes ends below address 2^32, and is off the `n` bytes from address `x` on. */
  predicate WritesElsewhere(request: Request, start: nat, size: nat, x: nat, n: nat) {
    request.WriteAt? && request.data != [] ==>
      var y := start + BlockStart(size, request.sector);
      y + |request.data| <= U32_LIMIT && (x + n <= y || y + |request.data| <= x)
  }

  /** Below address 2^32 what is written elsewhere is kept elsewhere. */
  lemma ApartBelow(ops: seq<SlotOp>, start: nat, size: nat, x: nat, n: nat)
    requires size > 0 && x + n <= U32_LIMIT
    requires forall k :: 0 <= k < |ops| && ops[k].Ask? ==> WritesElsewhere(ops[k].request, start, size, x, n)
    ensures WritesApart(ops, start, size, x, n)
  {
    hide Place, BlockStart;
    forall z, k | x <= z < x + n && 0 <= k < |ops| && ops[k].Ask?
      ensures RequestSpares(ops[k].request, start, size, Place(size, z))
    {
      PlaceBelow(size, z);
      var request := ops[k].request;
      if request.WriteAt? {
        var y := start + BlockStart(size, request.sector);
        forall w | y <= w < y + |request.data|
          ensures Place(size, w) != Place(size, z)
        {
          PlaceBelow(size, w);
        }
      }
    }
  }

  lemma ShowsStays(o: Oracle, s: State, e: State, sector: nat, data: seq<byte>)
    requires s.Coherent() && SameDrive(s, e) && s.disk.blockSize > 0 && Shows(s, sector, data)
    requires var x := s.start + BlockStart(s.disk.blockSize, sector);
             forall y :: x <= y < x + |data| ==> ByteStays(o, s, e, Place(s.disk.blockSize, y))
    ensures NoDrain(o, s.disk, e.disk) ==> Shows(e, sector, data)
    ensures Safe(s, sector, data) ==> Safe(e, sector, data)
  {
    hide State.Coherent, State.Image, NoFill, NoDrain, Place, Reachable, BlockStart;
    var f, h := AtSector(Abs(s), sector), AtSector(Abs(e), sector);
    var fd, hd := f.(bytes := s.disk.bytes), h.(bytes := e.disk.bytes);
    forall y | f.RawIdx() <= y < f.RawIdx() + |data|
      ensures f.Has(y) && data[y - f.RawIdx()] == s.Image()[f.PlaceOf(y)]
      ensures NoDrain(o, s.disk, e.disk) ==> h.Has(y) && data[y - h.RawIdx()] == h.bytes[h.PlaceOf(y)]
      ensures Safe(s, sector, data) ==>
                && h.Has(y) && data[y - h.RawIdx()] == h.bytes[h.PlaceOf(y)]
                && hd.Has(y) && data[y - hd.RawIdx()] == hd.bytes[hd.PlaceOf(y)]
    {
      assert f.Has(y) && data[y - f.RawIdx()] == f.bytes[f.PlaceOf(y)];
      assert ByteStays(o, s, e, Place(s.disk.blockSize, y));
      if Safe(s, sector, data) {
        assert fd.Has(y) && data[y - fd.RawIdx()] == fd.bytes[fd.PlaceOf(y)];
      }
    }
  }

  /**
   A run that writes none of these bytes to the drive leaves them: if they are on the
   device already whatever it loses, and otherwise if it loses nothing.
   */
  lemma SlotShows(d: Drive, ops: seq<SlotOp>, sector: nat, data: seq<byte>)
    requires NoPut(ops) && d.state.Coherent() && SlotRun(Some(d), ops).Some?
    requires NoFill(d.oracle, d.state.disk, SlotRun(Some(d), ops).value.state.disk)
    requires d.state.disk.blockSize > 0 && Shows(d.state, sector, data)
    requires var size := d.state.disk.blockSize;
             WritesApart(ops, d.state.start, size, d.state.start + BlockStart(size, sector), |data|)
    ensures var e := SlotRun(Some(d), ops).value.state;
            && SameDrive(d.state, e)
            && (NoDrain(d.oracle, d.state.disk, e.disk) ==> Shows(e, sector, data))
            && (Safe(d.state, sector, data) ==> Safe(e, sector, data))
  {
    hide SlotRun, State.Coherent, State.Image, NoFill, NoDrain, Place, Reachable, WritesSpare, BlockStart, Safe, Shows;
    var s, e := d.state, SlotRun(Some(d), ops).value.state;
    SlotByte(d, ops, 0);
    var x := s.start + BlockStart(s.disk.blockSize, sector);
    forall y | x <= y < x + |data|
      ensures ByteStays(d.oracle, s, e, Place(s.disk.blockSize, y))
    {
      SlotByte(d, ops, Place(s.disk.blockSize, y));
    }
    ShowsStays(d.oracle, s, e, sector, data);
  }

  // ---------- What is written is read back ----------

  /** The drive in slot `p` shows `data`, which are `count` sectors, from `sector` on. */
  ghost predicate Has(t: Table, p: nat, sector: nat, count: nat, data: seq<byte>) {
    && p < SLOTS && t.slots[p].Some?
    && var s := t.slots[p].value.state;
       s.Coherent() && |data| == BlockStart(s.disk.blockSize, count) && Shows(s, sector, data)
  }

  /** And they are on the device. */
  ghost predicate HasSafe(t: Table, p: nat, sector: nat, count: nat, data: seq<byte>) {
    Has(t, p, sector, count, data) && Safe(t.slots[p].value.state, sector, data)
  }

  /** The drive `pdrv` is there, and `data` are `count` sectors, no two bytes of which go to one place. */
  ghost predicate Names(t: Table, pdrv: nat, sector: nat, count: nat, data: seq<byte>) {
    var p := GetIdx(t, pdrv);
    && p < SLOTS && t.slots[p].Some?
    && var s, size := t.slots[p].value.state, t.slots[p].value.state.disk.blockSize;
       && s.Coherent() && |data| == BlockStart(size, count)
       && OneEach(size, s.start + BlockStart(size, sector), data)
  }

  /**
   The run leaves the drive in slot `p` where it is and writes none of the `n` bytes from
   `sector` on to it, and no read of it that fails fills the buffer.
   */
  ghost predicate LeavesAlone(t: Table, ops: seq<DriveTables.Op>, p: nat, sector: nat, n: nat)
    requires p < SLOTS
  {
    var u := DriveTables.Run(t, ops).table;
    && t.slots[p].Some? && u.slots[p].Some? && NoPut(Own(t, ops, p))
    && var d, size := t.slots[p].value, t.slots[p].value.state.disk.blockSize;
       && size > 0
       && NoFill(d.oracle, d.state.disk, u.slots[p].value.state.disk)
       && WritesApart(Own(t, ops, p), d.state.start, size, d.state.start + BlockStart(size, sector), n)
  }

  /** And no write-back of the drive that fails drains the buffer. */
  ghost predicate Undisturbed(t: Table, ops: seq<DriveTables.Op>, p: nat, sector: nat, n: nat)
    requires p < SLOTS
  {
    && LeavesAlone(t, ops, p, sector, n)
    && NoDrain(t.slots[p].value.oracle, t.slots[p].value.state.disk,
               DriveTables.Run(t, ops).table.slots[p].value.state.disk)
  }

  lemma RunHas(t: Table, ops: seq<DriveTables.Op>, p: nat, sector: nat, count: nat, data: seq<byte>)
    requires Has(t, p, sector, count, data) && LeavesAlone(t, ops, p, sector, |data|)
    ensures var u := DriveTables.Run(t, ops).table;
            && (Undisturbed(t, ops, p, sector, |data|) ==> Has(u, p, sector, count, data))
            && (HasSafe(t, p, sector, count, data) ==> HasSafe(u, p, sector, count, data))
  {
    hide DriveTables.Run, Own, SlotRun, State.Coherent, State.Image, NoFill, NoDrain, WritesApart, Shows, BlockStart,
         NoPut;
    SlotAlone(t, ops, p);
    SlotShows(t.slots[p].value, Own(t, ops, p), sector, data);
  }

  lemma WriteHas(t: Table, pdrv: nat, sector: nat, count: nat, data: seq<byte>)
    requires Names(t, pdrv, sector, count, data)
    requires DriveTables.Step(t, On(pdrv, WriteAt(sector, data))).answer == DriveTables.Moved([], ResOk)
    ensures Has(DriveTables.Step(t, On(pdrv, WriteAt(sector, data))).table, GetIdx(t, pdrv), sector, count, data)
  {
    hide WriteSectors, State.Coherent, State.Image, Shows, OneEach, BlockStart, AllDone;
    var d := t.slots[GetIdx(t, pdrv)].value;
    WriteShowsIff(d.state, d.oracle, sector, data);
  }

  lemma SyncHas(t: Table, pdrv: nat, sector: nat, count: nat, data: seq<byte>)
    requires Has(t, GetIdx(t, pdrv), sector, count, data)
    requires DriveTables.Step(t, On(pdrv, Sync)).answer == DriveTables.Moved([], ResOk)
    ensures HasSafe(DriveTables.Step(t, On(pdrv, Sync)).table, GetIdx(t, pdrv), sector, count, data)
  {
    hide Flush, State.Coherent, State.Image, F.Holds, BlockStart, AllDone, NoFill, NoDrain, State.Settled;
    var d := t.slots[GetIdx(t, pdrv)].value;
    FlushKeepsView(d.state, d.oracle);
  }

  lemma ReadHas(t: Table, pdrv: nat, sector: nat, count: nat, data: seq<byte>)
    requires Has(t, GetIdx(t, pdrv), sector, count, data)
    ensures var r := DriveTables.Step(t, On(pdrv, ReadAt(sector, count))).answer;
            r.Moved? && (r.result == ResOk ==> r.data == data)
  {
    hide ReadSectors, State.Coherent, State.Image, Shows, BlockStart;
    var d := t.slots[GetIdx(t, pdrv)].value;
    if ReadSectors(d.state, d.oracle, sector, count).ok {
      ReadShows(d.state, d.oracle, sector, count, data);
    }
  }

  /**
   Sectors written to a drive, at any address, are read back, after any run on the table
   that leaves the drive in its slot, writes no byte of these sectors to it and loses no
   block of it: other drives come and go, are read, written and flushed, and the
   numbers of the disks may change.
   */
  lemma WrittenIsReadBack(t: Table, pdrv: nat, sector: nat, count: nat, data: seq<byte>,
                          ops: seq<DriveTables.Op>, again: nat)
    requires Names(t, pdrv, sector, count, data)
    requires var w := DriveTables.Step(t, On(pdrv, WriteAt(sector, data)));
             && w.answer == DriveTables.Moved([], ResOk)
             && Undisturbed(w.table, ops, GetIdx(t, pdrv), sector, |data|)
             && GetIdx(DriveTables.Run(w.table, ops).table, again) == GetIdx(t, pdrv)
    ensures var w := DriveTables.Step(t, On(pdrv, WriteAt(sector, data)));
            var r := DriveTables.Step(DriveTables.Run(w.table, ops).table, On(again, ReadAt(sector, count))).answer;
            r.Moved? && (r.result == ResOk ==> r.data == data)
  {
    hide DriveTables.Run, DriveTables.Step, Names, Has, NoDrain, LeavesAlone;
    var w := DriveTables.Step(t, On(pdrv, WriteAt(sector, data))).table;
    WriteHas(t, pdrv, sector, count, data);
    RunHas(w, ops, GetIdx(t, pdrv), sector, count, data);
    ReadHas(DriveTables.Run(w, ops).table, again, sector, count, data);
  }

  /**
   Once a `CTRL_SYNC` has been answered `RES_OK` they are on the device, and are read back
   and stay there also after a run that loses blocks of the drive.
   */
  lemma SyncedIsReadBack(t: Table, pdrv: nat, sector: nat, count: nat, data: seq<byte>,
                         ops: seq<DriveTables.Op>, sync: nat, more: seq<DriveTables.Op>, again: nat)
    requires Names(t, pdrv, sector, count, data)
    requires var w, p := DriveTables.Step(t, On(pdrv, WriteAt(sector, data))), GetIdx(t, pdrv);
             var u := DriveTables.Run(w.table, ops).table;
             var f := DriveTables.Step(u, On(sync, Sync));
             && w.answer == DriveTables.Moved([], ResOk)
             && Undisturbed(w.table, ops, p, sector, |data|) && GetIdx(u, sync) == p
             && f.answer == DriveTables.Moved([], ResOk)
             && LeavesAlone(f.table, more, p, sector, |data|)
             && GetIdx(DriveTables.Run(f.table, more).table, again) == p
    ensures var w := DriveTables.Step(t, On(pdrv, WriteAt(sector, data))).table;
            var f := DriveTables.Step(DriveTables.Run(w, ops).table, On(sync, Sync)).table;
            var v := DriveTables.Run(f, more).table;
            var r := DriveTables.Step(v, On(again, ReadAt(sector, count))).answer;
            && HasSafe(v, GetIdx(t, pdrv), sector, count, data)
            && r.Moved? && (r.result == ResOk ==> r.data == data)
  {
    hide DriveTables.Run, DriveTables.Step, Names, Has, NoDrain, LeavesAlone, Safe;
    var p := GetIdx(t, pdrv);
    var w := DriveTables.Step(t, On(pdrv, WriteAt(sector, data))).table;
    WriteHas(t, pdrv, sector, count, data);
    RunHas(w, ops, p, sector, count, data);
    var u := DriveTables.Run(w, ops).table;
    SyncHas(u, sync, sector, count, data);
    var f := DriveTables.Step(u, On(sync, Sync)).table;
    RunHas(f, more, p, sector, count, data);
    ReadHas(DriveTables.Run(f, more).table, again, sector, count, data);
  }

  // ---------- A full table, and a scan off its end ----------

  /** `n` calls of `add_fs` with a drive each. */
  function Adds(d: Drive, n: nat): seq<DriveTables.Op> {
    if n == 0 then [] else [AddFs(d)] + Adds(d, n - 1)
  }

  /** From slot `from` up to `to` the slots hold connected drives, and behind them they are empty. */
  predicate FilledTo(t: Table, from: nat, to: nat) {
    && (forall i :: from <= i < to && i < SLOTS ==> !Free(t.slots[i]))
    && (forall i :: to <= i < SLOTS ==> t.slots[i].None?)
  }

  lemma AddNext(t: Table, d: Drive, k: nat)
    requires d.connected && FilledTo(t, t.defaultDisk, k) && t.defaultDisk <= k <= ScanEnd(t)
    ensures AddSlot(t) == if k < ScanEnd(t) then Slotted(k) else if t.defaultDisk <= 1 then Full else OutOfTable
    ensures k < ScanEnd(t) ==>
              var u := DriveTables.Step(t, AddFs(d)).table;
              FilledTo(u, u.defaultDisk, k + 1) && u.defaultDisk == t.defaultDisk
  {
    hide Scan;
    AddSlotIs(t);
    assert k < ScanEnd(t) ==> Free(t.slots[k]);
  }

  lemma {:induction false} AddsFill(t: Table, d: Drive, k: nat, n: nat)
    requires d.connected && FilledTo(t, t.defaultDisk, k) && t.defaultDisk <= k && k + n <= ScanEnd(t)
    ensures var u := DriveTables.Run(t, Adds(d, n)).table;
            FilledTo(u, u.defaultDisk, k + n) && u.defaultDisk == t.defaultDisk
    decreases n
  {
    hide DriveTables.Step, FilledTo;
    if n == 0 {
    } else {
      AddNext(t, d, k);
      AddsFill(DriveTables.Step(t, AddFs(d)).table, d, k + 1, n - 1);
      assert Adds(d, n)[1..] == Adds(d, n - 1);
    }
  }

  /** After fourteen drives `add_fs` reports a full table, and the last slot is empty. */
  lemma FullWitness(d: Drive, n: nat)
    requires d.connected && n == 14
    ensures var t := DriveTables.Run(EMPTY, Adds(d, n)).table;
            DriveTables.Step(t, AddFs(d)).answer == Added(Full) && t.slots[14].None?
  {
    hide DriveTables.Run, Adds, Scan;
    AddsFill(EMPTY, d, 0, n);
    AddNext(DriveTables.Run(EMPTY, Adds(d, n)).table, d, n);
  }

  /** With default disk 2, after thirteen drives `add_fs` runs off the table. */
  lemma OffTableWitness(d: Drive, n: nat)
    requires d.connected && n == 13
    ensures var t := DriveTables.Run(EMPTY, [SetDefault(0xD2)] + Adds(d, n)).table;
            DriveTables.Step(t, AddFs(d)).answer == Added(OutOfTable)
  {
    hide Adds, Scan;
    var cmd: bv8 := 0xD2;
    assert cmd & IOCTL_SET_DEFAULT_DISK == 0xD0 && cmd & 0xF == 2;
    var t := DriveTables.Step(EMPTY, SetDefault(0xD2)).table;
    assert ([SetDefault(0xD2)] + Adds(d, n))[1..] == Adds(d, n);
    AddsFill(t, d, 2, n);
    AddNext(DriveTables.Run(t, Adds(d, n)).table, d, 2 + n);
  }
}
