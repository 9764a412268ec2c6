/**
 The drive table as src/filesystem/fatfs_raw.rs writes it: an array of slots updated in
 place, each owning a device with its cache. Each call does to the table what its
 function in `DriveTables` says, and no two slots ever share an object.
 */
module Drives {
  import opened Bytes
  import opened Wrappers
  import opened BlockCache
  import opened Sectors
  import opened OffsetScsi
  import opened DriveTables
  import opened DriveRuns

  class DeviceHandle {
    const device: OffsetScsiDevice
    /** What `is_connected` reports; only the world outside changes it. */
    var connected: bool

    constructor (device: OffsetScsiDevice)
      ensures this.device == device && connected
    {
      this.device, connected := device, true;
    }

    ghost function Repr(): set<object> {
      {this} + device.Repr()
    }

    ghost function View(): Drive
      reads this, device, device.device, device.blockBuffer
      requires device.Valid()
    {
      Drive(device.View(), device.device.oracle, connected)
    }

    method ReadAt(buff: array<byte>, sector: nat, count: nat) returns (ok: bool)
      requires device.Valid() && buff.Length == BlockStart(device.device.disk.blockSize, count)
      modifies device.Repr(), buff
      ensures device.Valid()
      ensures var spec := ReadSectors(old(device.View()), device.device.oracle, sector, count);
              && device.View() == spec.state
              && buff[..] == spec.data + old(buff[..])[|spec.data|..]
              && ok == spec.ok
    {
      hide BlockCache.Read, BlockStart, WholeBlocks;
      var byteOffset := BlockStart(device.device.disk.blockSize, sector);
      var _ := device.Seek(Start(byteOffset));
      var numRead := device.Read(buff);
      ok := numRead.Some?;
    }

    method WriteAt(buff: array<byte>, sector: nat, count: nat) returns (ok: bool)
      requires device.Valid() && buff.Length == BlockStart(device.device.disk.blockSize, count)
      modifies device.Repr()
      ensures device.Valid()
      ensures var spec := WriteSectors(old(device.View()), device.device.oracle, sector, buff[..]);
              && device.View() == spec.state
              && ok == spec.ok
    {
      hide BlockCache.Write, BlockStart, WholeBlocks;
      var byteOffset := BlockStart(device.device.disk.blockSize, sector);
      var _ := device.Seek(Start(byteOffset));
      var numWritten := device.Write(buff[..]);
      ok := numWritten.Some?;
    }

    method Sync() returns (ok: bool)
      requires device.Valid()
      modifies device.Repr()
      ensures device.Valid()
      ensures var spec := BlockCache.Flush(old(device.View()), device.device.oracle);
              device.View() == spec.state && ok == spec.ok
    {
      ok := device.Flush();
    }
  }

  lemma ReadLength(s: State, o: Oracle, sector: nat, count: nat)
    requires s.Shaped()
    ensures var r := ReadSectors(s, o, sector, count);
            && |r.data| <= BlockStart(s.disk.blockSize, count)
            && (r.ok ==> |r.data| == BlockStart(s.disk.blockSize, count))
  {
    hide BlockCache.Read, BlockStart, WholeBlocks;
    if ReadSectors(s, o, sector, count).ok {
      ReadOkLength(SeekSector(s, sector), o, BlockStart(s.disk.blockSize, count));
    }
  }

  class FatfsSysContext {
    const drives: array<DeviceHandle?>
    var defaultDisk: nat

    ghost predicate ValidAt(i: nat)
      requires i < drives.Length
      reads drives, if drives[i] == null then {} else drives[i].Repr()
    {
      drives[i] != null ==> drives[i].device.Valid()
    }

    /** The objects of the drives. */
    ghost function Owned(): set<object>
      reads drives
    {
      set i, o | 0 <= i < drives.Length && drives[i] != null && o in drives[i].Repr() :: o
    }

    /** No two slots share an object: a slot owns what it holds. */
    ghost predicate Separate()
      reads drives
    {
      && drives.Length == SLOTS
      && forall i, j :: 0 <= i < SLOTS && 0 <= j < SLOTS && i != j && drives[i] != null && drives[j] != null
                ==> drives[i].Repr() !! drives[j].Repr()
    }

    ghost predicate Valid()
      reads drives, Owned()
    {
      Separate() && forall i :: 0 <= i < SLOTS ==> ValidAt(i)
    }

    ghost function SlotView(i: nat): Slot
      requires i < drives.Length && ValidAt(i)
      reads drives, if drives[i] == null then {} else drives[i].Repr()
    {
      if drives[i] == null then None else Some(drives[i].View())
    }

    ghost function View(): Table
      requires Valid()
      reads this, drives, Owned()
    {
      Table(seq(SLOTS, i requires 0 <= i < SLOTS && Valid() reads this, drives, Owned() => SlotView(i)), defaultDisk)
    }

    constructor ()
      ensures Valid() && fresh(drives) && Owned() == {} && View() == EMPTY
    {
      drives := new DeviceHandle?[SLOTS](_ => null);
      defaultDisk := 0;
    }

    function GetIdx(pdrv: nat): nat
      reads this
    {
      if pdrv > 0 then (if pdrv < SLOTS then pdrv else SLOTS) else defaultDisk
    }

    /** A slot `add_fs` would take. */
    predicate IsFree(i: nat)
      requires i < drives.Length
      reads drives, drives[i]
    {
      drives[i] == null || !drives[i].connected
    }

    /** A slot whose objects stay as they are shows the same drive. */
    twostate lemma SlotSame(j: nat)
      requires j < drives.Length && drives[j] == old(drives[j]) && old(ValidAt(j))
      requires drives[j] != null ==>
                 unchanged(drives[j], drives[j].device, drives[j].device.device, drives[j].device.blockBuffer)
      ensures ValidAt(j) && SlotView(j) == old(SlotView(j))
    {
    }

    /** The table with another drive, or none, in slot `i`. */
    twostate lemma SlotReplaced(i: nat, new d: DeviceHandle?)
      requires old(Valid()) && i < SLOTS && drives[..] == old(drives[..])[i := d]
      requires forall j :: 0 <= j < SLOTS && j != i
                 ==> ValidAt(j) && old(ValidAt(j)) && SlotView(j) == old(SlotView(j))
      requires d != null ==> d.Repr() !! old(Owned()) && ValidAt(i)
      ensures Valid() && Owned() <= old(Owned()) + if d == null then {} else d.Repr()
      ensures View().slots == old(View().slots)[i := SlotView(i)]
    {
      hide BlockCache.Flush, OffsetScsiDevice.Valid, OffsetScsiDevice.View, DeviceHandle.View;
      forall j | 0 <= j < SLOTS && j != i && d != null && drives[j] != null
        ensures drives[j].Repr() !! d.Repr()
      {
        assert drives[j] == old(drives[j]);
        assert drives[j].Repr() <= old(Owned());
      }
      forall j, k | 0 <= j < SLOTS && 0 <= k < SLOTS && j != k && drives[j] != null && drives[k] != null
        ensures drives[j].Repr() !! drives[k].Repr()
      {
        assert j != i ==> drives[j] == old(drives[j]);
        assert k != i ==> drives[k] == old(drives[k]);
      }
    }

    /** Puts `d` in slot `i`; what was there before is dropped, which flushes it. */
    method Replace(i: nat, d: DeviceHandle?)
      requires Valid() && i < SLOTS
      requires d != null ==> d.device.Valid() && d.Repr() !! Owned()
      modifies drives, if drives[i] == null then {} else drives[i].device.Repr()
      ensures Valid() && drives[..] == old(drives[..])[i := d]
      ensures View().slots == old(View().slots)[i := if d == null then None else Some(old(d.View()))]
      ensures defaultDisk == old(defaultDisk)
      ensures Owned() <= old(Owned()) + if d == null then {} else d.Repr()
      ensures old(drives[i]) != null ==>
                && old(drives[i]).device.Valid()
                && var lost := old(SlotView(i)).value;
                   old(drives[i]).device.View() == BlockCache.Flush(lost.state, lost.oracle).state
    {
      hide BlockCache.Flush, OffsetScsiDevice.Valid, OffsetScsiDevice.View;
      var was := drives[i];
      assert ValidAt(i) && (was != null ==> was.Repr() <= Owned());
      if was != null {
        was.device.Drop();
      }
      drives[i] := d;
      forall j | 0 <= j < SLOTS && j != i
        ensures ValidAt(j) && old(ValidAt(j)) && SlotView(j) == old(SlotView(j))
      {
        assert old(ValidAt(j));
        SlotSame(j);
      }
      assert ValidAt(i) && (d != null ==> d.View() == old(d.View()));
      SlotReplaced(i, d);
    }

    lemma ViewShape()
      requires Valid()
      ensures drives.Length == SLOTS && View().defaultDisk == defaultDisk
    {
    }

    lemma FreeShows(i: nat)
      requires Valid() && i < SLOTS
      ensures IsFree(i) <==> Free(View().slots[i])
      ensures drives[i] == null <==> View().slots[i].None?
      ensures drives[i] != null ==>
                ValidAt(i) && View().slots[i] == Some(drives[i].View()) && drives[i].Repr() <= Owned()
    {
      assert ValidAt(i) && View().slots[i] == SlotView(i);
    }

    /** The loop of `add_fs`: the first free slot from the default disk on, as far as it looks. */
    method FirstFree() returns (r: AddResult)
      requires Valid()
      ensures Valid() && View() == old(View()) && r == AddSlot(View())
    {
      hide Scan, AddSlot, Free, FatfsSysContext.SlotView, FatfsSysContext.ValidAt, FatfsSysContext.Separate,
           FatfsSysContext.Valid, FatfsSysContext.View, DeviceHandle.View;
      ghost var t := View();
      ViewShape();
      AddSlotScans(t);
      var idx := defaultDisk;
      while (idx + 1) % SLOTS != defaultDisk
        invariant Scan(t, idx) == AddSlot(t) && defaultDisk <= idx && Valid() && View() == t
        decreases SLOTS + 1 - idx
      {
        ScanUnfolds(t, idx);
        if idx >= SLOTS {
          return OutOfTable;
        }
        FreeShows(idx);
        if IsFree(idx) {
          return Slotted(idx);
        }
        idx := idx + 1;
      }
      ScanUnfolds(t, idx);
      r := Full;
    }

    /** Puts the drive in the slot its loop finds. */
    method AddFs(newFs: DeviceHandle) returns (r: AddResult)
      requires Valid() && newFs.device.Valid() && newFs.Repr() !! Owned()
      modifies drives, Owned()
      ensures Valid()
      ensures var spec := DriveTables.Step(old(View()), DriveTables.AddFs(old(newFs.View())));
              View() == spec.table && Added(r) == spec.answer
      ensures drives[..] == if r.Slotted? && r.idx < SLOTS then old(drives[..])[r.idx := newFs] else old(drives[..])
      ensures Owned() <= old(Owned()) + newFs.Repr()
    {
      hide Scan, AddSlot, DriveTables.Step, Free, FatfsSysContext.SlotView, FatfsSysContext.ValidAt,
           FatfsSysContext.Separate, FatfsSysContext.Valid, FatfsSysContext.View, DeviceHandle.View;
      ghost var t, drive := View(), newFs.View();
      ViewShape();
      AddStep(t, drive);
      r := FirstFree();
      if r.Slotted? {
        FreeShows(r.idx);
        Replace(r.idx, newFs);
        ViewShape();
        SameTable(View(), t.slots[r.idx := Some(drive)], t.defaultDisk);
      }
    }

    /** Clears the slot unless it holds a connected device. */
    method DiskStatus(pdrv: nat) returns (r: DStatus)
      requires Valid() && GetIdx(pdrv) < SLOTS
      modifies drives, Owned()
      ensures Valid()
      ensures var spec := DriveTables.Step(old(View()), On(pdrv, Status));
              View() == spec.table && Stat(r) == spec.answer
      ensures ServedBy(old(View()), Stepped(View(), Stat(r)), Status,
                       if pdrv > 0 then pdrv else old(defaultDisk))
      ensures drives[..] == if r == Ready then old(drives[..]) else old(drives[..])[old(GetIdx(pdrv)) := null]
      ensures Owned() <= old(Owned())
    {
      hide SlotView;
      DiskIs(View(), pdrv, Status);
      var idx := GetIdx(pdrv);
      FreeShows(idx);
      r := if drives[idx] == null then NoInit else if drives[idx].connected then Ready else NoDisk;
      if r != Ready {
        Replace(idx, null);
      }
    }

    /** The table with the drive of slot `i` replaced by what it has become. */
    twostate lemma OneChanged(i: nat)
      requires old(Valid()) && i < SLOTS && drives[i] != null && drives[i] == old(drives[i])
      requires forall j :: 0 <= j < SLOTS ==> drives[j] == old(drives[j])
      requires drives[i].device.Valid() && defaultDisk == old(defaultDisk)
      requires forall j :: 0 <= j < SLOTS && j != i
                 ==> ValidAt(j) && old(ValidAt(j)) && SlotView(j) == old(SlotView(j))
      ensures Valid() && View() == old(View()).(slots := old(View()).slots[i := Some(drives[i].View())])
    {
      assert ValidAt(i) && SlotView(i) == Some(drives[i].View());
    }

    method DiskRead(pdrv: nat, buff: array<byte>, sector: nat, count: nat) returns (r: DResult)
      requires Valid() && GetIdx(pdrv) < SLOTS
      requires var d := drives[GetIdx(pdrv)];
               d != null ==> buff.Length == BlockStart(d.device.device.disk.blockSize, count)
      modifies buff, Owned()
      ensures Valid() && Owned() == old(Owned())
      ensures var spec := DriveTables.Step(old(View()), On(pdrv, DriveTables.ReadAt(sector, count)));
              && View() == spec.table
              && spec.answer == DriveTables.Moved(if r == ResOk then buff[..] else [], r)
      ensures var slot := old(View()).slots[GetIdx(pdrv)];
              var data := if slot.None? then []
                          else ReadSectors(slot.value.state, slot.value.oracle, sector, count).data;
              |data| <= buff.Length && buff[..] == data + old(buff[..])[|data|..]
      ensures var answer := DriveTables.Moved(if r == ResOk then buff[..] else [], r);
              ServedBy(old(View()), Stepped(View(), answer), DriveTables.ReadAt(sector, count),
                       if pdrv > 0 then pdrv else old(defaultDisk))
    {
      hide ReadSectors, WriteSectors, BlockCache.Flush, BlockStart, WholeBlocks;
      DiskIs(View(), pdrv, DriveTables.ReadAt(sector, count));
      var idx := GetIdx(pdrv);
      var d := drives[idx];
      FreeShows(idx);
      if d == null {
        return ResNotReady;
      }
      ReadLength(d.device.View(), d.device.device.oracle, sector, count);
      var ok := d.ReadAt(buff, sector, count);
      forall j | 0 <= j < SLOTS && j != idx
        ensures ValidAt(j) && old(ValidAt(j)) && SlotView(j) == old(SlotView(j))
      {
        assert old(ValidAt(j));
        SlotSame(j);
      }
      OneChanged(idx);
      r := if ok then ResOk else ResError;
    }

    method DiskWrite(pdrv: nat, buff: array<byte>, sector: nat, count: nat) returns (r: DResult)
      requires Valid() && GetIdx(pdrv) < SLOTS
      requires var d := drives[GetIdx(pdrv)];
               d != null ==> buff.Length == BlockStart(d.device.device.disk.blockSize, count)
      modifies Owned()
      ensures Valid() && Owned() == old(Owned())
      ensures var spec := DriveTables.Step(old(View()), On(pdrv, DriveTables.WriteAt(sector, old(buff[..]))));
              View() == spec.table && DriveTables.Moved([], r) == spec.answer
      ensures ServedBy(old(View()), Stepped(View(), DriveTables.Moved([], r)),
                       DriveTables.WriteAt(sector, old(buff[..])), if pdrv > 0 then pdrv else old(defaultDisk))
    {
      hide ReadSectors, WriteSectors, BlockCache.Flush, BlockStart, WholeBlocks;
      DiskIs(View(), pdrv, DriveTables.WriteAt(sector, buff[..]));
      var idx := GetIdx(pdrv);
      var d := drives[idx];
      FreeShows(idx);
      if d == null {
        return ResNotReady;
      }
      var ok := d.WriteAt(buff, sector, count);
      forall j | 0 <= j < SLOTS && j != idx
        ensures ValidAt(j) && old(ValidAt(j)) && SlotView(j) == old(SlotView(j))
      {
        assert old(ValidAt(j));
        SlotSame(j);
      }
      OneChanged(idx);
      r := if ok then ResOk else ResError;
    }

    /** The `CTRL_SYNC` arm of `disk_ioctl`. */
    method CtrlSync(pdrv: nat) returns (r: DResult)
      requires Valid() && GetIdx(pdrv) < SLOTS
      modifies Owned()
      ensures Valid() && Owned() == old(Owned())
      ensures var spec := DriveTables.Step(old(View()), On(pdrv, DriveTables.Sync));
              View() == spec.table && DriveTables.Moved([], r) == spec.answer
      ensures ServedBy(old(View()), Stepped(View(), DriveTables.Moved([], r)), DriveTables.Sync,
                       if pdrv > 0 then pdrv else old(defaultDisk))
    {
      hide ReadSectors, WriteSectors, BlockCache.Flush, BlockStart, WholeBlocks;
      DiskIs(View(), pdrv, DriveTables.Sync);
      var idx := GetIdx(pdrv);
      var d := drives[idx];
      FreeShows(idx);
      if d == null {
        return ResNotReady;
      }
      var synced := d.Sync();
      forall j | 0 <= j < SLOTS && j != idx
        ensures ValidAt(j) && old(ValidAt(j)) && SlotView(j) == old(SlotView(j))
      {
        assert old(ValidAt(j));
        SlotSame(j);
      }
      OneChanged(idx);
      r := if synced then ResOk else ResError;
    }

    /** The commands that pass the first test of `disk_ioctl`: the low four bits are the new default disk. */
    method SetDefaultDisk(cmd: DefaultCmd) returns (r: DResult)
      requires Valid()
      modifies this`defaultDisk
      ensures Valid()
      ensures var spec := DriveTables.Step(old(View()), SetDefault(cmd));
              View() == spec.table && DriveTables.Moved([], r) == spec.answer
    {
      defaultDisk := (cmd & 0xF) as nat;
      r := ResOk;
      forall j | 0 <= j < SLOTS
        ensures ValidAt(j) && old(ValidAt(j)) && SlotView(j) == old(SlotView(j))
      {
        assert old(ValidAt(j));
        SlotSame(j);
      }
      assert View().slots == old(View()).slots;
    }

    /** Not a call of the source: what the USB session of a drive reports has changed. */
    method SessionChanged(slot: nat, up: bool)
      requires Valid()
      modifies Owned()
      ensures Valid() && Owned() == old(Owned()) && View() == DriveTables.Step(old(View()), World(slot, up)).table
    {
      if slot < SLOTS {
        FreeShows(slot);
        var d := drives[slot];
        if d != null {
          d.connected := up;
          forall j | 0 <= j < SLOTS && j != slot
            ensures ValidAt(j) && old(ValidAt(j)) && SlotView(j) == old(SlotView(j))
          {
            assert old(ValidAt(j));
            SlotSame(j);
          }
          OneChanged(slot);
        }
      }
    }
  }

  // ---------- Runs on the object ----------

  /** `Doing` is for everything but `add_fs`, which takes over an object. */
  datatype Call = Adding(handle: DeviceHandle) | Doing(op: DriveTables.Op)

  /** The objects a call hands over to the table. */
  ghost function Given(call: Call): set<object> {
    if call.Adding? then call.handle.Repr() else {}
  }

  ghost predicate Ready(call: Call)
    reads Given(call)
  {
    if call.Adding? then call.handle.device.Valid() else !call.op.AddFs?
  }

  ghost function AsOp(call: Call): DriveTables.Op
    requires Ready(call)
    reads Given(call)
  {
    match call
    case Adding(handle) => DriveTables.AddFs(handle.View())
    case Doing(op) => op
  }

  /** A write is of whole sectors. */
  predicate Fits(t: Table, op: DriveTables.Op) {
    op.On? && op.request.WriteAt? && GetIdx(t, op.pdrv) < SLOTS && t.slots[GetIdx(t, op.pdrv)].Some? ==>
      WholeBlocks(|op.request.data|, t.slots[GetIdx(t, op.pdrv)].value.state.disk.blockSize)
  }

  function SectorCount(total: nat, size: nat): nat
    requires size > 0
  {
    total / size
  }

  lemma WholeCount(total: nat, size: nat)
    requires WholeBlocks(total, size)
    ensures size > 0 && BlockStart(size, SectorCount(total, size)) == total
  {
  }

  /** A read into a new buffer. */
  method RequestRead(ctx: FatfsSysContext, pdrv: nat, sector: nat, count: nat) returns (answer: Answer)
    requires ctx.Valid() && ctx.GetIdx(pdrv) < SLOTS
    modifies ctx.Owned()
    ensures ctx.Valid() && ctx.Owned() <= old(ctx.Owned())
    ensures Stepped(ctx.View(), answer)
         == DriveTables.Step(old(ctx.View()), On(pdrv, DriveTables.ReadAt(sector, count)))
  {
    hide ReadSectors, BlockStart, WholeBlocks, DriveTables.Step, FatfsSysContext.Valid, FatfsSysContext.View;
    ghost var t := ctx.View();
    ctx.ViewShape();
    var idx := ctx.GetIdx(pdrv);
    var d := ctx.drives[idx];
    ctx.FreeShows(idx);
    var n := if d == null then 0 else BlockStart(d.device.device.disk.blockSize, count);
    var buff := new byte[n](_ => 0);
    assert ctx.Valid() && ctx.View() == t;
    var result := ctx.DiskRead(pdrv, buff, sector, count);
    answer := DriveTables.Moved(if result == ResOk then buff[..] else [], result);
  }

  /** A write from a new buffer. */
  method RequestWrite(ctx: FatfsSysContext, pdrv: nat, sector: nat, data: seq<byte>) returns (answer: Answer)
    requires ctx.Valid() && ctx.GetIdx(pdrv) < SLOTS && Fits(ctx.View(), On(pdrv, DriveTables.WriteAt(sector, data)))
    modifies ctx.Owned()
    ensures ctx.Valid() && ctx.Owned() <= old(ctx.Owned())
    ensures Stepped(ctx.View(), answer)
         == DriveTables.Step(old(ctx.View()), On(pdrv, DriveTables.WriteAt(sector, data)))
  {
    hide WriteSectors, BlockStart, WholeBlocks, DriveTables.Step, FatfsSysContext.Valid, FatfsSysContext.View;
    ghost var t := ctx.View();
    ctx.ViewShape();
    var idx := ctx.GetIdx(pdrv);
    var d := ctx.drives[idx];
    ctx.FreeShows(idx);
    var count := 0;
    if d != null {
      WholeCount(|data|, d.device.device.disk.blockSize);
      count := SectorCount(|data|, d.device.device.disk.blockSize);
    }
    var buff := new byte[|data|](i requires 0 <= i < |data| => data[i]);
    assert buff[..] == data;
    assert ctx.Valid() && ctx.View() == t;
    var result := ctx.DiskWrite(pdrv, buff, sector, count);
    answer := DriveTables.Moved([], result);
  }

  /** A request by the number of a disk; a number behind the table is a panic. */
  method Request(ctx: FatfsSysContext, pdrv: nat, request: DriveTables.Request) returns (answer: Answer)
    requires ctx.Valid() && Fits(ctx.View(), On(pdrv, request))
    modifies ctx.drives, ctx.Owned()
    ensures ctx.Valid() && ctx.Owned() <= old(ctx.Owned())
    ensures Stepped(ctx.View(), answer) == DriveTables.Step(old(ctx.View()), On(pdrv, request))
  {
    hide Serve, BlockStart, WholeBlocks, FatfsSysContext.Valid, FatfsSysContext.View, Fits;
    ctx.ViewShape();
    if ctx.GetIdx(pdrv) >= SLOTS {
      return Panicked;
    }
    match request
    case Status =>
      var status := ctx.DiskStatus(pdrv);
      answer := Stat(status);
    case ReadAt(sector, count) =>
      answer := RequestRead(ctx, pdrv, sector, count);
    case WriteAt(sector, data) =>
      answer := RequestWrite(ctx, pdrv, sector, data);
    case Sync =>
      var result := ctx.CtrlSync(pdrv);
      answer := DriveTables.Moved([], result);
  }

  lemma WorldIsSilent(t: Table, slot: nat, up: bool)
    ensures DriveTables.Step(t, World(slot, up)).answer == DriveTables.Moved([], ResOk)
  {
  }

  /** One operation on the table; a drive that is added shares no object with it. */
  method Perform(ctx: FatfsSysContext, call: Call) returns (answer: Answer)
    requires ctx.Valid() && Ready(call) && Given(call) !! ctx.Owned() && Fits(ctx.View(), AsOp(call))
    modifies ctx`defaultDisk, ctx.drives, ctx.Owned()
    ensures ctx.Valid() && ctx.Owned() <= old(ctx.Owned()) + Given(call)
    ensures Stepped(ctx.View(), answer) == DriveTables.Step(old(ctx.View()), old(AsOp(call)))
  {
    hide FatfsSysContext.Valid, FatfsSysContext.View, FatfsSysContext.Owned, DriveTables.Step, Fits;
    match call
    case Adding(handle) =>
      var r := ctx.AddFs(handle);
      answer := Added(r);
    case Doing(op) =>
      match op
      case On(pdrv, request) => answer := Request(ctx, pdrv, request);
      case SetDefault(cmd) =>
        var r := ctx.SetDefaultDisk(cmd);
        answer := DriveTables.Moved([], r);
      case World(slot, up) =>
        WorldIsSilent(ctx.View(), slot, up);
        ctx.SessionChanged(slot, up);
        answer := DriveTables.Moved([], ResOk);
  }

  ghost function GivenBy(calls: seq<Call>): set<object> {
    set k, o | 0 <= k < |calls| && o in Given(calls[k]) :: o
  }

  /** The calls add valid drives that share no object with the table or with each other, and mean `ops`. */
  ghost predicate Mean(ctx: FatfsSysContext, calls: seq<Call>, ops: seq<DriveTables.Op>)
    reads ctx.drives, ctx.Owned(), GivenBy(calls)
  {
    && |ops| == |calls|
    && (forall k :: 0 <= k < |calls| ==> Ready(calls[k]) && AsOp(calls[k]) == ops[k])
    && (forall k :: 0 <= k < |calls| ==> Given(calls[k]) !! {ctx, ctx.drives} + ctx.Owned())
    && (forall j, k :: 0 <= j < k < |calls| ==> Given(calls[j]) !! Given(calls[k]))
  }

  predicate FitsAlong(t: Table, ops: seq<DriveTables.Op>)
    decreases |ops|
  {
    ops == [] || (Fits(t, ops[0]) && FitsAlong(DriveTables.Step(t, ops[0]).table, ops[1..]))
  }

  /**
   Every run on the object is a run of the table, and keeps its slots valid and apart, if
   the drives that are added share no object with the table or with each other.
   */
  method Replay(ctx: FatfsSysContext, calls: seq<Call>, ghost ops: seq<DriveTables.Op>) returns (answers: seq<Answer>)
    requires ctx.Valid() && Mean(ctx, calls, ops) && FitsAlong(ctx.View(), ops)
    modifies ctx`defaultDisk, ctx.drives, ctx.Owned(), GivenBy(calls)
    ensures ctx.Valid() && ctx.Owned() <= old(ctx.Owned()) + GivenBy(calls)
    ensures DriveTables.Ran(ctx.View(), answers) == DriveTables.Run(old(ctx.View()), ops)
    decreases |calls|
  {
    hide FatfsSysContext.Valid, FatfsSysContext.View, FatfsSysContext.Owned, DriveTables.Step, Fits;
    if calls == [] {
      answers := [];
    } else {
      var answer := Perform(ctx, calls[0]);
      forall k | 0 < k < |calls|
        ensures Ready(calls[k]) && AsOp(calls[k]) == ops[k]
      {
        assert old(Ready(calls[k]));
      }
      assert Mean(ctx, calls[1..], ops[1..]);
      var rest := Replay(ctx, calls[1..], ops[1..]);
      answers := [answer] + rest;
    }
  }

  lemma NamesFits(t: Table, pdrv: nat, sector: nat, count: nat, data: seq<byte>)
    requires Names(t, pdrv, sector, count, data)
    ensures Fits(t, On(pdrv, DriveTables.WriteAt(sector, data)))
    ensures Fits(t, On(pdrv, DriveTables.ReadAt(sector, count)))
  {
    hide State.Coherent;
    StartsWhole(t.slots[GetIdx(t, pdrv)].value.state.disk.blockSize, count);
  }

  lemma ReadFits(t: Table, pdrv: nat, sector: nat, count: nat)
    ensures Fits(t, On(pdrv, DriveTables.ReadAt(sector, count)))
  {
  }

  /**
   What is written to a drive is what is read from it, after any run in between that leaves
   the drive and these sectors alone.
   */
  method RoundTrip(ctx: FatfsSysContext, pdrv: nat, sector: nat, count: nat, data: seq<byte>,
                   calls: seq<Call>, ghost ops: seq<DriveTables.Op>, again: nat)
    returns (w: Answer, r: Answer)
    requires ctx.Valid() && Mean(ctx, calls, ops)
    requires Names(ctx.View(), pdrv, sector, count, data)
    requires var t := DriveTables.Step(ctx.View(), On(pdrv, DriveTables.WriteAt(sector, data))).table;
             && FitsAlong(t, ops)
             && Undisturbed(t, ops, GetIdx(ctx.View(), pdrv), sector, |data|)
             && GetIdx(DriveTables.Run(t, ops).table, again) == GetIdx(ctx.View(), pdrv)
    modifies ctx`defaultDisk, ctx.drives, ctx.Owned(), GivenBy(calls)
    ensures ctx.Valid()
    ensures w == DriveTables.Moved([], ResOk) && r.Moved? && r.result == ResOk ==> r.data == data
  {
    hide FatfsSysContext.Valid, FatfsSysContext.View, FatfsSysContext.Owned, DriveTables.Step, DriveTables.Run,
         FitsAlong, Fits, Undisturbed, Names;
    ghost var t := ctx.View();
    NamesFits(t, pdrv, sector, count, data);
    w := Request(ctx, pdrv, DriveTables.WriteAt(sector, data));
    forall k | 0 <= k < |calls|
      ensures Ready(calls[k]) && AsOp(calls[k]) == ops[k]
    {
      assert old(Ready(calls[k]));
    }
    assert Mean(ctx, calls, ops);
    var _ := Replay(ctx, calls, ops);
    if w == DriveTables.Moved([], ResOk) {
      WrittenIsReadBack(t, pdrv, sector, count, data, ops, again);
    }
    ReadFits(ctx.View(), again, sector, count);
    r := Request(ctx, again, DriveTables.ReadAt(sector, count));
  }
}
