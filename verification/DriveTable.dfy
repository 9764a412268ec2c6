/**
 The drive table of src/filesystem/fatfs_raw.rs: fifteen slots, each of them empty or
 holding a drive with its own cache, as functions from table to table.
 */
module DriveTables {
  import opened Bytes
  import opened Wrappers
  import opened BlockCache
  import opened Sectors

  const SLOTS: nat := 15

  /** `connected` is what the USB session reports; only the world outside changes it. */
  datatype RawDrive = Drive(state: State, oracle: Oracle, connected: bool)

  type Drive = d: RawDrive | d.state.Shaped() witness Drive(Fresh(Disk(1, [], []), 0), _ => Done(true), false)

  type Slot = Option<Drive>

  datatype RawTable = Table(slots: seq<Slot>, defaultDisk: nat)

  type Table = t: RawTable | |t.slots| == SLOTS witness Table(seq(SLOTS, _ => None), 0)

  const EMPTY: Table := Table(seq(SLOTS, _ => None), 0)

  lemma SameTable(t: Table, slots: seq<Slot>, defaultDisk: nat)
    requires t.slots == slots && t.defaultDisk == defaultDisk
    ensures t == Table(slots, defaultDisk)
  {
  }

  // ---------- One slot ----------

  datatype Request =
    | Status
    | ReadAt(sector: nat, count: nat)
    | WriteAt(sector: nat, data: seq<byte>)
    | Sync

  datatype DResult = ResOk | ResError | ResNotReady

  datatype DStatus = Ready | NoDisk | NoInit

  /** Where a drive was put; the last answer is the panic of an index behind the table. */
  datatype AddResult = Slotted(idx: nat) | Full | OutOfTable

  datatype Answer =
    | Stat(status: DStatus)
    | Moved(data: seq<byte>, result: DResult)
    | Added(place: AddResult)
    | Panicked

  /** What can happen to a slot: a request, a new drive, or the world pulling or giving back its drive. */
  datatype SlotOp = Ask(request: Request) | Put(drive: Drive) | Plug(up: bool)

  datatype Served = Served(slot: Slot, answer: Answer)

  /** The drive after an operation of its cache; `data` is what it gave the caller. */
  function After(d: Drive, r: Outcome, data: seq<byte>): Served
    requires r.state.Shaped()
  {
    Served(Some(d.(state := r.state)), Moved(data, if r.ok then ResOk else ResError))
  }

  /** A status that is not `Ready` clears the slot. */
  function Serve(slot: Slot, request: Request): Served {
    match slot
    case None => Served(None, if request.Status? then Stat(NoInit) else Moved([], ResNotReady))
    case Some(d) =>
      match request
      case Status => if d.connected then Served(slot, Stat(Ready)) else Served(None, Stat(NoDisk))
      case ReadAt(sector, count) =>
        var r := ReadSectors(d.state, d.oracle, sector, count);
        After(d, r, if r.ok then r.data else [])
      case WriteAt(sector, data) => After(d, WriteSectors(d.state, d.oracle, sector, data), [])
      case Sync => After(d, Flush(d.state, d.oracle), [])
  }

  function SlotStep(slot: Slot, op: SlotOp): Slot {
    match op
    case Ask(request) => Serve(slot, request).slot
    case Put(drive) => Some(drive)
    case Plug(up) => if slot.Some? then Some(slot.value.(connected := up)) else None
  }

  function SlotRun(slot: Slot, ops: seq<SlotOp>): Slot
    decreases |ops|
  {
    if ops == [] then slot else SlotRun(SlotStep(slot, ops[0]), ops[1..])
  }

  /** The answers to the requests of a run. */
  function SlotAnswers(slot: Slot, ops: seq<SlotOp>): seq<Answer>
    decreases |ops|
  {
    if ops == [] then []
    else
      (if ops[0].Ask? then [Serve(slot, ops[0].request).answer] else [])
      + SlotAnswers(SlotStep(slot, ops[0]), ops[1..])
  }

  // ---------- The table ----------

  /** A slot `add_fs` would take. */
  predicate Free(slot: Slot) {
    slot.None? || !slot.value.connected
  }

  function GetIdx(t: Table, pdrv: nat): nat {
    if pdrv > 0 then (if pdrv < SLOTS then pdrv else SLOTS) else t.defaultDisk
  }

  /** The scan of `add_fs` from slot `idx` on. */
  function Scan(t: Table, idx: nat): AddResult
    decreases SLOTS + 1 - idx
  {
    if (idx + 1) % SLOTS == t.defaultDisk then Full
    else if idx >= SLOTS then OutOfTable
    else if Free(t.slots[idx]) then Slotted(idx)
    else Scan(t, idx + 1)
  }

  lemma ScanUnfolds(t: Table, idx: nat)
    ensures Scan(t, idx) == if (idx + 1) % SLOTS == t.defaultDisk then Full
                            else if idx >= SLOTS then OutOfTable
                            else if Free(t.slots[idx]) then Slotted(idx)
                            else Scan(t, idx + 1)
  {
  }

  function AddSlot(t: Table): AddResult {
    Scan(t, t.defaultDisk)
  }

  lemma AddSlotScans(t: Table)
    ensures AddSlot(t) == Scan(t, t.defaultDisk)
  {
  }

  /** How far the scan looks: never at the last slot when the default disk is 0. */
  function ScanEnd(t: Table): nat {
    if t.defaultDisk == 0 then SLOTS - 1 else SLOTS
  }

  lemma {:induction false} ScanIs(t: Table, idx: nat)
    requires t.defaultDisk <= idx && (idx <= ScanEnd(t) || idx == t.defaultDisk)
    ensures var r := Scan(t, idx);
            && (r.Slotted? ==> && idx <= r.idx < ScanEnd(t) && Free(t.slots[r.idx])
                               && forall i :: idx <= i < r.idx ==> !Free(t.slots[i]))
            && (!r.Slotted? ==> forall i :: idx <= i < ScanEnd(t) ==> !Free(t.slots[i]))
            && (r.Full? ==> t.defaultDisk <= 1)
            && (r.OutOfTable? ==> t.defaultDisk >= 2)
    decreases SLOTS + 1 - idx
  {
    hide Free;
    if (idx + 1) % SLOTS == t.defaultDisk || idx >= SLOTS || Free(t.slots[idx]) {
    } else {
      ScanIs(t, idx + 1);
    }
  }

  /**
   The drive is put in the least free slot from the default disk on. There is none the
   scan looks at exactly if it gives up: at the end of the table if the default disk is
   0 or 1, and behind the end, with a panic, if it is 2 or more.
   */
  lemma AddSlotIs(t: Table)
    ensures var r := AddSlot(t);
            && (r.Slotted? ==> && t.defaultDisk <= r.idx < ScanEnd(t) && Free(t.slots[r.idx])
                               && forall i :: t.defaultDisk <= i < r.idx ==> !Free(t.slots[i]))
            && (r.Slotted? <==> exists i :: t.defaultDisk <= i < ScanEnd(t) && Free(t.slots[i]))
            && (!r.Slotted? ==> (r.Full? <==> t.defaultDisk <= 1))
  {
    ScanIs(t, t.defaultDisk);
  }

  // ---------- Runs of the table ----------

  const IOCTL_SET_DEFAULT_DISK: bv8 := 0xD0

  /** The commands the first test of `disk_ioctl` picks out. */
  predicate SetsDefault(cmd: bv8) {
    cmd & IOCTL_SET_DEFAULT_DISK != 0
  }

  type DefaultCmd = cmd: bv8 | SetsDefault(cmd) witness IOCTL_SET_DEFAULT_DISK

  /** `World` stands for the drive in a slot being pulled or given back. */
  datatype Op =
    | AddFs(drive: Drive)
    | On(pdrv: nat, request: Request)
    | SetDefault(cmd: DefaultCmd)
    | World(slot: nat, up: bool)

  /** The slot an operation is about. */
  function Target(t: Table, op: Op): (r: Option<nat>)
    ensures r.Some? ==> r.value < SLOTS && !op.SetDefault?
  {
    match op
    case AddFs(_) =>
      AddSlotIs(t);
      if AddSlot(t).Slotted? then Some(AddSlot(t).idx) else None
    case On(pdrv, _) => if GetIdx(t, pdrv) < SLOTS then Some(GetIdx(t, pdrv)) else None
    case SetDefault(_) => None
    case World(slot, _) => if slot < SLOTS then Some(slot) else None
  }

  datatype Stepped = Stepped(table: Table, answer: Answer)

  /** An index behind the table is a panic, and leaves it as it is. */
  function Step(t: Table, op: Op): Stepped {
    match op
    case AddFs(drive) =>
      AddSlotIs(t);
      var r := AddSlot(t);
      Stepped(if r.Slotted? then t.(slots := t.slots[r.idx := Some(drive)]) else t, Added(r))
    case On(pdrv, request) =>
      var idx := GetIdx(t, pdrv);
      if idx >= SLOTS then Stepped(t, Panicked)
      else
        var served := Serve(t.slots[idx], request);
        Stepped(t.(slots := t.slots[idx := served.slot]), served.answer)
    case SetDefault(cmd) => Stepped(t.(defaultDisk := (cmd & 0xF) as nat), Moved([], ResOk))
    case World(slot, up) =>
      if slot < SLOTS && t.slots[slot].Some?
      then Stepped(t.(slots := t.slots[slot := Some(t.slots[slot].value.(connected := up))]), Moved([], ResOk))
      else Stepped(t, Moved([], ResOk))
  }

  /** The code of `IOCTL_ADD_FILESYSTEM` passes that test: such a call makes 13 the default disk, and adds nothing. */
  lemma AddCodeSetsDefault(t: Table, cmd: bv8)
    requires cmd == 0xAD
    ensures SetsDefault(cmd) && Step(t, SetDefault(cmd)) == Stepped(Table(t.slots, 13), Moved([], ResOk))
  {
    assert cmd & 0xD0 == 0x80 && cmd & 0xF == 13;
  }

  // ---------- What a call does to which slot ----------

  /** Request `request` is served by slot `i`: that slot changes as it does, and no other. */
  ghost predicate ServedBy(t: Table, r: Stepped, request: Request, i: nat) {
    && i < SLOTS
    && r.answer == Serve(t.slots[i], request).answer
    && r.table.slots[i] == Serve(t.slots[i], request).slot
    && (forall j :: 0 <= j < SLOTS && j != i ==> r.table.slots[j] == t.slots[j])
    && r.table.defaultDisk == t.defaultDisk
  }

  /**
   A number from 1 to 14 names the slot of that number, and 0 the default disk. For any
   other the source panics.
   */
  lemma DiskIs(t: Table, pdrv: nat, request: Request)
    ensures 0 < pdrv < 15 ==> ServedBy(t, Step(t, On(pdrv, request)), request, pdrv)
    ensures pdrv == 0 && t.defaultDisk < 15 ==> ServedBy(t, Step(t, On(pdrv, request)), request, t.defaultDisk)
    ensures pdrv >= 15 || (pdrv == 0 && t.defaultDisk >= 15) ==> Step(t, On(pdrv, request)) == Stepped(t, Panicked)
  {
    hide Serve;
  }

  /** A status says whether there is a drive and it is connected, and clears the slot otherwise. */
  lemma StatusIs(slot: Slot)
    ensures var r := Serve(slot, Status);
            && (slot.Some? && slot.value.connected ==> r == Served(slot, Stat(Ready)))
            && (slot.Some? && !slot.value.connected ==> r == Served(None, Stat(NoDisk)))
            && (slot.None? ==> r == Served(None, Stat(NoInit)))
  {
  }

  /** Without a drive a transfer or a sync is answered `RES_NOTRDY`. */
  lemma NoDriveIs(request: Request)
    requires !request.Status?
    ensures Serve(None, request) == Served(None, Moved([], ResNotReady))
  {
  }

  /** `add_fs` can take slot `i`: it looks there, and finds no drive, or one that is not connected. */
  predicate Takes(t: Table, i: nat) {
    && t.defaultDisk <= i < (if t.defaultDisk == 0 then 14 else 15)
    && (t.slots[i].None? || !t.slots[i].value.connected)
  }

  lemma AddStep(t: Table, drive: Drive)
    ensures var r := AddSlot(t);
            && (r.Slotted? ==> r.idx < SLOTS)
            && Step(t, AddFs(drive))
               == Stepped(if r.Slotted? then Table(t.slots[r.idx := Some(drive)], t.defaultDisk) else t, Added(r))
  {
    AddSlotIs(t);
  }

  /** It puts the drive in the first slot it can take, and changes nothing if there is none. */
  lemma AddIs(t: Table, drive: Drive)
    ensures forall i: nat :: Takes(t, i) && (forall j: nat :: j < i ==> !Takes(t, j))
                             ==> Step(t, AddFs(drive))
                                 == Stepped(Table(t.slots[i := Some(drive)], t.defaultDisk), Added(Slotted(i)))
    ensures (forall i: nat :: !Takes(t, i)) ==>
              Step(t, AddFs(drive)) == Stepped(t, Added(if t.defaultDisk <= 1 then Full else OutOfTable))
  {
    hide Scan;
    AddSlotIs(t);
    AddStep(t, drive);
    var r := AddSlot(t);
    if r.Slotted? {
      assert Takes(t, r.idx);
      forall i: nat | Takes(t, i) && forall j: nat :: j < i ==> !Takes(t, j)
        ensures i == r.idx
      {
        assert i < r.idx ==> !Free(t.slots[i]);
      }
    } else {
      forall i: nat
        ensures Takes(t, i) ==> Free(t.slots[i])
      {
      }
    }
  }

  /** Commands from 0x00 to 0x0F and from 0x20 to 0x2F do not pass the first test, and all others do. */
  lemma SetsDefaultIff(cmd: bv8)
    ensures SetsDefault(cmd) <==> !(cmd < 0x10 || 0x20 <= cmd < 0x30)
  {
  }

  lemma LowBits(cmd: bv8)
    ensures cmd & 0xF == cmd % 16
  {
  }

  lemma LowBitsNat(cmd: bv8)
    ensures (cmd % 16) as nat == (cmd as nat) % 16
  {
  }

  /** The default disk becomes what the low four bits of the command say. */
  lemma SetDefaultIs(t: Table, cmd: DefaultCmd)
    ensures Step(t, SetDefault(cmd)) == Stepped(Table(t.slots, (cmd as nat) % 16), Moved([], ResOk))
  {
    LowBits(cmd);
    LowBitsNat(cmd);
  }

  datatype Ran = Ran(table: Table, answers: seq<Answer>)

  function Run(t: Table, ops: seq<Op>): (r: Ran)
    ensures |r.answers| == |ops|
    decreases |ops|
  {
    if ops == [] then Ran(t, [])
    else
      var first := Step(t, ops[0]);
      var rest := Run(first.table, ops[1..]);
      rest.(answers := [first.answer] + rest.answers)
  }
}
