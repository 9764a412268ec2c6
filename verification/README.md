# nx-fatdrive: a verified model

nx-fatdrive mounts a FAT partition of a USB mass-storage drive. This project models the parts of it
that keep state, in Dafny 4.11, and proves what they keep. `dafny verify dfyconfig.toml` checks all of it.

## The modules

- `Bytes`, `Wrappers`: bytes, patches of byte sequences, block arithmetic; options and results.
- `BlockCache`: the operations of the single-block write-back cache of `src/buf_scsi.rs`, as functions from
  state to state. `FlatArray`: what it is meant to be, a byte array with a cursor.
- `CacheCoherence`, `CacheRefinement`, `CacheTraffic`, `CacheFrame`, `CacheChunks`, `CacheFaults`,
  `AddressCut`: what the operations and their runs do. `CacheFaults` is about faults that touch the buffer,
  `AddressCut` about addresses of 2^32 and above.
- `OffsetScsi`: the same cache as the source writes it, an object with loops over bytes. Each method is
  proved to do what its function does, and `Replay` carries the theorem about whole runs over to the object.
- `Sectors`: sector transfers of `src/filesystem/fatfs_raw.rs`. `DriveTables`, `DriveRuns`: its table of
  drives, as functions, and what every run of it keeps. `Drives`: the table as the source writes it.
- `Listing`: the resumable directory listing of the same file.
- `VecNewtypes`, `UsbComm`: the bounded byte queue and the two transfer loops.
- `IdTables`, `IdRuns`, `IdCalls`, `IdStores`, `Paths`, `StatPaths`: the handle table of
  `src/capi_helpers/idstore.rs`, and path lookup through cached directory handles.
- `Locks`, `LockSteps`, `LockRuns`, `LockCalls`, `Leaks`, `Deadlock`, `Doom`, `LockWitnesses`: the three
  mutexes and the three boxes of `src/capi_helpers/usbfs.rs`, with any number of threads.

## The block device

The `scsi` crate is not part of this model; what the cache needs of it is a contract. A device is a byte
array whose length is a whole number of blocks, and a log of the commands it got. A read appends bytes
until the buffer holds its capacity, a write stores the buffer. An oracle decides how the n-th command is
answered, so a theorem about every oracle covers every pattern of answers:

- `Done(drained)`: it worked; a write has drained the caller's buffer, or kept it. All results hold for both.
- `Fault(false)`: it failed and left the buffer alone.
- `Fault(true)`: it failed and touched the buffer: a read has filled it, a write has drained it.

A command outside the device fails and leaves the buffer alone. `UsbComm.InTransfer` and
`UsbComm.OutTransfer` show where the faults come from: a failed read transfer leaves the buffer alone, a
failed write transfer has drained it. A device may accept a write of no bytes or refuse it, as the transfer
of `src/usb_comm.rs:46-48` does; results that depend on it say so. So a theorem asks for no more than it
needs, of the commands that were given: `NoFill` that no read filled the buffer and failed, `NoDrain` that
no write drained it and failed, `Unharmed` both, `AllDone` that all worked.

The array of `FlatArray` can be `cut`: then the byte at an address is kept where the cache looks for it.
With blocks that divide 2^32 that is the address modulo 2^32 (`AddressCut.CutIsModulo`). The theorems about
runs have no bound on addresses and are about the cut array; `AddressCut` says when it is the plain one.

## Main results

1. **The cache is a byte array with a cursor.** For every run of seek, read, write, flush, fill and
   consume, at any addresses, on every device no fault of which touches the buffer, the answers are some the
   array allows (a failed operation moved a proper prefix), and the bytes agree. Without faults they are
   exactly the answers of the array, running into its end included. A flush that succeeds makes the device
   equal to the array (`TraceRefinement`, `TraceExact`, `FlushedDeviceIsFlat`). If failed write-backs drain
   the buffer, every run is one of an array that can fall back, in an operation it reports as failed, to
   what was written to the device last (`TraceWithLosses`).
2. **Below address 2^32 the array is a plain one** (`PlainTrace`). Above, the addresses of a read, a fill
   or a write say exactly whether it does what it would do to a plain array (`ReadsPlainIff`,
   `FillsPlainIff`, `WritesPlainIff`).
3. **Traffic.** A transfer reads exactly the blocks of its range that are not buffered, each once, in order.
   A write that succeeds writes back a dirty block it leaves at once, and then, in order, exactly the blocks
   of its range behind it that it changed. Over a run, lost blocks or not, the device is written only in
   blocks in which some write changed a byte. A run leaves every byte alone that none of its writes
   addresses, in the view and on the device, and so every byte in front of the partition if its writes stay
   below address 2^32.
4. **Chunks.** Reading slices of any length through `fill_buf` and `consume` is `read`, in data, state and
   commands; a last chunk of length 0 has filled its slice on top (`ChunksAreRead`, `ChunksAgree`).
5. **Drives.** In every run of the table, adding, status, sectors, flushes, default disk and drives being
   pulled included, a number from 1 to 14 is the slot of that number and 0 the default disk (`DiskIs`), the
   slots do not disturb each other (`SlotAlone`), a cleared slot stays not ready until a drive is added, and
   no connected drive is ever displaced. As long as no read of it fails and fills the buffer, a drive that
   stays in its slot is an array of sectors that can lose, with a request answered `RES_ERROR`, what was not
   yet saved; if no write-back of it fails and drains the buffer it loses nothing (`DriveIsArray`), and so
   if no request to it is answered `RES_ERROR` (`AnsweredIsUnharmed`). Sectors written to it with `RES_OK`,
   at any address, up to 2^32 bytes at once or any number no two different ones of which are kept in one
   place (`OneEach`), are read back after any run that writes none of them and loses nothing
   (`WrittenIsReadBack`); once a `CTRL_SYNC` has been answered `RES_OK` they are on the device and are read
   back after any run that writes none of them, whatever else is lost (`SyncedIsReadBack`). On the object,
   no two slots ever share anything.
6. **Threads.** In every interleaving, `usbFsInitialize` and its failures included, threads use live boxes
   only and no box is freed twice. At every point of every run the calls in progress can all be completed
   exactly if no two threads have crossed: one past its mount in `usbFsInitialize`, one with the id store in
   hand and in need of what the first has (`CompletableIff`, `RunCompletableIff`). The boxes that get out of
   reach, and are never freed, are exactly those another was published over; a lone `usbFsExit` frees all
   others (`LeakedAreOverwritten`, `ExitLeavesLeaked`). A lone `usbFsInitialize` changes nothing if all
   three pointers are set, and otherwise leaves a new context, file system and empty store
   (`LoneInitialize`, `InitializeAgain`).
7. **Handles.** Every run that issues fewer than 2^64 ids keeps the five maps of the handle table coherent
   and its ids unique, directories enumerate each entry once whatever happens in between
   (`EnumerationInOrder`), and a closed directory is gone for good: its id finds nothing, and its path opens
   under an id never seen before, from the first entry on (`ClosedDir`). The path of an id is that of the
   call that issued it, until it is closed (`PathOfIssuer`). Looking a path up finds the first entry of that
   name in the directory the path names (`StatPathFinds`), and does not depend on which directories are
   open, but for one form of path.
8. **Transfers and listings.** The two transfer loops are inverse to each other; a listing that fails and
   is retried is a prefix of the directory at all times and the directory in the end.

## Where the code falls short, and exactly when

- A write-back that fails *and* drains the buffer loses the block (`FlushKeepsIff`). The retry is then a
  write of no bytes. On a device that accepts that, it reports success without having stored the block
  (`RetriedFlushStoresIff`, `DrainedFaultWitness`). On a device that refuses it, as the USB transfer does,
  every flush fails, and so does everything that leaves the block, until the block is loaded again, which
  gives the bytes of the device (`LostUntilBack`, `LostFillBack`, `RefusedRetryLoss`).
- A read that fails *and* fills the buffer misfiles a block, unless it is the one loaded last or one with
  the same bytes; later, the wrong bytes are handed out wherever the two blocks differ, and a byte stored
  there and flushed overwrites the one block with the other (`FillCoherentIff`, `MisfiledServes`,
  `MisfiledStore`, `FilledFaultWitness`).
- Addresses of 2^32 and above are cut to 32 bits. Which reads and writes that changes, and which writes
  reach bytes in front of the partition: `ReadsPlainIff`, `WritesPlainIff`, `WritesAboveIff`. On a drive of
  4 GiB and one block a write to its last block goes to the boot record (`BootRecordWitness`).
- A close that cannot flush leaves its path behind: from then on opening that path yields an id without a
  handle, for good (`RunFromEmpty`, `StaleForever`, `OpenedIsUsableIff`, `LostCloseWitness`).
- Once the id counter has come round, an insertion displaces a live handle if it meets one
  (`WrapDisplacesIff`, `WrapDisplacesDirIff`, `WrapWitness`).
- For one component behind three or four slashes, `stat_path` does depend on whether "/" is open
  (`ParentIsSlashIff`, `TransparentIff`, `SlashedWitness`).
- `add_fs` never uses the last slot with default disk 0, and runs off the table with default disk 2 or more
  when every slot from there on is taken (`AddSlotIs`, `FullWitness`, `OffTableWitness`).
- `disk_ioctl` takes the code of `IOCTL_ADD_FILESYSTEM` for a change of the default disk: the call reports
  success, makes 13 the default disk, and adds nothing (`AddCodeSetsDefault`).
- `usbFsInitialize` takes the mutexes in the opposite order: polling `usbFsIsInitialized` meanwhile can
  deadlock with it, for good (`InitializeCanDeadlock`, `DoomedForever`, `MutualWaitForever`). The deadlock is
  decided, exactly, as soon as two threads have crossed (`RunCompletableIff`). It cannot come to that if
  `usbFsInitialize` overlaps only with calls that take no second mutex under that of the id store, which is
  any but a probe (another `usbFsInitialize` included), `usbFsExit`, and a store call that takes the file
  system (`ApartCompletes`).
- `usbFsInitialize` publishes over a pointer that is set, and nothing frees what it pointed to: after a mount
  that failed, or where two of these calls overlap (`LeakedAreOverwritten`, `FailedMountLeaks`).
- A call on the store and `usbFsStatFilesystem` can work on the file system at once, under different
  mutexes; nothing else is ever shared (`SharedUseIff`, `SharedUseWitness`).

## Model

| member | source | states |
|---|---|---|
| `OffsetScsi.OffsetScsiDevice.constructor` | src/buf_scsi.rs:24-38 | a new cache is coherent and shows the bytes of the device |
| `OffsetScsi.OffsetScsiDevice.Flush` | src/buf_scsi.rs:142-155 | the whole state and the result after a flush, failures included |
| `OffsetScsi.OffsetScsiDevice.FillBuf` | src/buf_scsi.rs:69-94 | the whole state after eviction and load, and the slice handed out |
| `OffsetScsi.OffsetScsiDevice.Consume` | src/buf_scsi.rs:96-98 | only the cursor moves |
| `OffsetScsi.OffsetScsiDevice.Read` | src/buf_scsi.rs:102-119 | the byte loop gives state, bytes and count of the recursive read; behind them the output is untouched |
| `OffsetScsi.OffsetScsiDevice.Write` | src/buf_scsi.rs:123-140 | the byte loop gives state and count of the recursive write |
| `OffsetScsi.OffsetScsiDevice.StoreByte` | src/buf_scsi.rs:131-135 | a byte is stored, and the block dirty, only if it differs |
| `OffsetScsi.OffsetScsiDevice.Seek` | src/buf_scsi.rs:158-176 | absolute and relative seeks move the cursor and nothing else |
| `OffsetScsi.OffsetScsiDevice.Drop` | src/buf_scsi.rs:17-21 | dropping the device flushes it |
| `OffsetScsi.Perform` | src/buf_scsi.rs:68-177 | one operation on the object is one step of the state functions |
| `OffsetScsi.Replay` | src/buf_scsi.rs:17-177 | a run on the object at any addresses, ended by a drop, is a run of the array if no fault touches the buffer; without faults answer for answer and byte for byte on the device |
| `OffsetScsi.ReadMoves` | src/buf_scsi.rs:105-118 | a read moves the cursor by the bytes it delivered, also when it fails |
| `OffsetScsi.WriteMoves` | src/buf_scsi.rs:125-139 | a write moves the cursor by the bytes it stored, also when it fails |
| `CacheCoherence.CursorBlock` | src/buf_scsi.rs:41-65 | the index helpers name the block and the offset of the cursor |
| `CacheCoherence.FlushKeepsView` | src/buf_scsi.rs:142-155 | a flush that succeeds puts the view on the device; one that fails leaves the device alone; the view stays unless the write-back drained the buffer |
| `CacheCoherence.LoadKeepsView` | src/buf_scsi.rs:76-92 | a load keeps the view and fails only for a fault or a block that is not on the device |
| `CacheCoherence.FillBufKeepsView` | src/buf_scsi.rs:69-94 | `fill_buf` keeps the view but for a drained write-back, and hands out its bytes up to the end of the block; exact failure condition |
| `CacheCoherence.PutByteChangesOne` | src/buf_scsi.rs:131-135 | the skip-if-equal store changes the view under the cursor only, and dirties iff it changes it |
| `CacheRefinement.ReadRefines` | src/buf_scsi.rs:102-119 | a read yields the bytes of the view; on an error exactly a proper prefix was delivered and the cursor moved by it |
| `CacheRefinement.WriteRefines` | src/buf_scsi.rs:123-140 | a write overwrites the view with its bytes; on an error with exactly the prefix it got to |
| `CacheRefinement.StepRefines` | src/buf_scsi.rs:68-177 | every operation is one of the array, the exact one if no command failed; the device holds what it held or a state the operation went through |
| `CacheRefinement.TraceRefinement` | src/buf_scsi.rs:17-177 | every run, at any addresses, no fault of which touches the buffer is a run of the array and ends coherent |
| `CacheRefinement.TraceExact` | src/buf_scsi.rs:17-177 | without faults all answers are those of the array, whether writes drain the buffer or not |
| `CacheRefinement.FlushedDeviceIsFlat` | src/buf_scsi.rs:17-21 | after any such run and a successful flush the device is the array |
| `CacheRefinement.TraceWithLosses` | src/buf_scsi.rs:17-177 | also when failed write-backs drain the buffer every run is one of an array that can fall back, with a failed operation, to what the device holds |
| `AddressCut.CutIsModulo` | src/buf_scsi.rs:76 | with blocks that divide 2^32 the byte at an address is the byte of the device at that address modulo 2^32 |
| `AddressCut.PlainTrace` | src/buf_scsi.rs:17-177 | a run that addresses bytes below 2^32 only is a run of a plain byte array, and without faults has exactly its answers |
| `AddressCut.ReadsPlainIff` | src/buf_scsi.rs:76 | a read is the plain one on every content iff its addresses up to the first that is off the device are below 2^32, or that one is off the device modulo 2^32 as well |
| `AddressCut.FillsPlainIff` | src/buf_scsi.rs:76 | the same for `fill_buf` |
| `AddressCut.WritesPlainIff` | src/buf_scsi.rs:149 | a write does what it does to a plain array for all bytes written iff the same holds |
| `AddressCut.CacheReadsPlainIff` | src/buf_scsi.rs:76 | on a given content: a read of the cache is the plain one iff what it sees modulo 2^32 is what is there |
| `AddressCut.WritesAboveIff` | src/buf_scsi.rs:149 | a write and a flush leave the bytes in front of the partition alone for all bytes written iff no address the write gets to is in front of it modulo 2^32 |
| `AddressCut.CutWrite` | src/buf_scsi.rs:149 | a byte written and flushed lands at its address modulo 2^32 |
| `AddressCut.BootRecordWitness` | src/buf_scsi.rs:149 | on a drive of 4 GiB and 512 bytes a write to the last block changes byte 0 |
| `CacheTraffic.FillTraffic` | src/buf_scsi.rs:70-92 | the commands of one `fill_buf`: write-back of a dirty block it leaves, read of a block it lacks |
| `CacheTraffic.ReadTraffic` | src/buf_scsi.rs:102-119 | the exact sequence of blocks a read reads, and its one possible write-back |
| `CacheTraffic.WriteTraffic` | src/buf_scsi.rs:123-140 | the exact sequences of blocks a write reads and writes back, and whether the last is dirty then |
| `CacheTraffic.ReadCount` | src/buf_scsi.rs:51-94 | the number of device reads from the two ends of the range |
| `CacheFrame.StepPinned` | src/buf_scsi.rs:123-155 | a byte no write addresses stays in the view and on the device, also when the operation fails or loses a block |
| `CacheFrame.RunPinned` | src/buf_scsi.rs:17-177 | the same along every run |
| `CacheFrame.NothingBelowPartition` | src/buf_scsi.rs:41-65 | a run whose writes end below address 2^32 changes no byte in front of the partition |
| `CacheFrame.WriteWritesWithin` | src/buf_scsi.rs:70-75 | a write has the device written only where it was dirty or a byte changes |
| `CacheFrame.RunWritesWithin` | src/buf_scsi.rs:132-155 | over a run the device is written only in blocks some write changed, also when write-backs drain the buffer |
| `CacheFrame.QuietRunWritesNothing` | src/buf_scsi.rs:132-145 | reads, and writes of what is there already, from a clean state never write the device, whatever fails |
| `CacheChunks.FillTwice` | src/buf_scsi.rs:69-94 | the slice is not empty, ends at the block boundary, and filling again changes nothing |
| `CacheChunks.ReadInSlice` | src/buf_scsi.rs:93-118 | reading inside the slice copies from it |
| `CacheChunks.ReadSplit` | src/buf_scsi.rs:102-119 | a read is the read of its first part and then of the rest |
| `CacheChunks.ChunksAreRead` | src/buf_scsi.rs:69-120 | any sequence of fills and consumes, of no bytes too, is one read, in data, state and commands; one that ends with a chunk of no bytes has filled its slice on top |
| `CacheChunks.ChunksAgree` | src/buf_scsi.rs:69-120 | data, cursor and view are those of one read for chunks of any length |
| `CacheFaults.FlushKeepsIff` | src/buf_scsi.rs:142-155 | a flush keeps dirty bytes in the buffer iff it does not fail and drain it, and the view iff that or the device has it |
| `CacheFaults.RetriedFlushStoresIff` | src/buf_scsi.rs:142-155 | a retried flush returns `Ok` iff the device takes the write, and then has stored the block iff the first attempt left the buffer alone, or there was nothing to store |
| `CacheFaults.LostUntilBack` | src/buf_scsi.rs:69-155 | where the device refuses a write of nothing: after a drained write-back everything that leaves the block fails along every run, and changes nothing on the device |
| `CacheFaults.LostFillBack` | src/buf_scsi.rs:69-94 | back in the block, a load hands out the bytes of the device and settles the cache |
| `CacheFaults.RefusedRetryLoss` | src/buf_scsi.rs:142-155 | on a new cache over such a device: a write, a failed flush and retry, a failed read of the next byte, and back at the first the old byte is read |
| `CacheFaults.MisfiledStore` | src/buf_scsi.rs:131-149 | a byte stored in a misfiled block and flushed puts the other block's bytes in its place |
| `CacheFaults.DrainedFaultLosesWrites` | src/buf_scsi.rs:77-93 | after a failed, draining write-back the block reads as it is on the device |
| `CacheFaults.FillCoherentIff` | src/buf_scsi.rs:69-94 | `fill_buf` leaves the cache coherent iff its read did not fail and fill the buffer, or did for the block loaded last or one with the same bytes; then the view stays iff no write-back was drained or it was saved |
| `CacheFaults.MisfiledServes` | src/buf_scsi.rs:77-91 | which bytes every later cursor in the misfiled block is handed, and that they are right iff the two blocks agree from there on |
| `CacheFaults.DrainedFaultWitness` | src/buf_scsi.rs:142-155 | on a new cache over a device that accepts a write of nothing: a write, a failed and a retried flush that returns `Ok`, and the old byte is on the device and is read |
| `CacheFaults.FilledFaultWitness` | src/buf_scsi.rs:77-91 | on a new cache: a failed read of byte 1, and byte 1 is handed out for byte 0 |
| `Sectors.ReadSectorsExact` | src/filesystem/fatfs_raw.rs:176-186 | `RES_OK` means the whole buffer, from exactly the blocks `lba + sector` on |
| `Sectors.WriteSectorsExact` | src/filesystem/fatfs_raw.rs:188-198 | `RES_OK` means all bytes at exactly the blocks `lba + sector` on; on an error a prefix of them |
| `Sectors.WriteSectorsPinned` | src/filesystem/fatfs_raw.rs:188-198 | bytes of other sectors stay, in the view and on the device |
| `Sectors.OtherSectorsStay` | src/filesystem/fatfs_raw.rs:188-198 | in the view, every other sector keeps its contents |
| `Sectors.WriteShowsIff` | src/filesystem/fatfs_raw.rs:188-198 | at any address: after `RES_OK` the user sees the bytes written iff no two different ones are kept in one place |
| `Sectors.ReadShows` | src/filesystem/fatfs_raw.rs:176-186 | at any address: `RES_OK` means the bytes the user sees |
| `Sectors.SectorRoundTrip` | src/filesystem/fatfs_raw.rs:176-198 | at any address: reading back what was written gives it iff no two different bytes are kept in one place |
| `Sectors.SectorPlace` | src/capi_helpers/usbfs.rs:53-56 | with blocks that divide 2^32, sector `k` of a partition at block `lba` is kept at `(lba + k) * block_size` modulo 2^32, the cut of the partition offset included |
| `Sectors.ShowsIff` | src/filesystem/fatfs_raw.rs:176-198 | with such blocks, what the user sees from a sector on are the device blocks at these addresses, for any `lba` |
| `AddressCut.ShortIsOneEach` | src/buf_scsi.rs:149 | no two of up to 2^32 bytes in a row are kept in one place |
| `DriveTables.AddCodeSetsDefault` | src/filesystem/fatfs_raw.rs:200-205 | the code of `IOCTL_ADD_FILESYSTEM` makes 13 the default disk and adds nothing |
| `DriveTables.DiskIs` | src/filesystem/fatfs_raw.rs:119-130 | a number from 1 to 14 is the slot of that number, 0 the default disk: a request changes that slot and no other; any other number panics |
| `DriveTables.StatusIs` | src/filesystem/fatfs_raw.rs:159-165 | ready iff there is a drive and it is connected; otherwise which of the two errors, and the slot is cleared |
| `DriveTables.NoDriveIs` | src/filesystem/fatfs_raw.rs:177-217 | without a drive a transfer or a sync is not ready |
| `DriveTables.AddIs` | src/filesystem/fatfs_raw.rs:145-156 | the whole table after an add: the first slot without a connected drive, or none |
| `DriveTables.SetDefaultIs` | src/filesystem/fatfs_raw.rs:200-205 | the default disk is the command modulo 16, and no slot changes |
| `DriveTables.SetsDefaultIff` | src/filesystem/fatfs_raw.rs:201 | which commands change the default disk |
| `DriveTables.AddSlotIs` | src/filesystem/fatfs_raw.rs:145-156 | the least free slot from the default disk on that the scan looks at; exactly when the table is full and when the scan runs off it |
| `DriveRuns.ServeIsStep` | src/filesystem/fatfs_raw.rs:176-217 | a transfer or a sync on a drive is one operation of its cache, from the sector it names |
| `DriveRuns.SlotAlone` | src/filesystem/fatfs_raw.rs:124-217 | in every run a slot and the answers to its requests are those of the operations about it alone |
| `DriveRuns.DriveIsArray` | src/filesystem/fatfs_raw.rs:159-217 | in every run in which no read of it fails and fills the buffer, a drive that stays in its slot is an array of sectors that can lose, with a request answered `RES_ERROR`, what is not saved; if no write-back drains its buffer it loses nothing |
| `DriveRuns.AnsweredIsUnharmed` | src/filesystem/fatfs_raw.rs:176-217 | if no request to a drive was answered `RES_ERROR`, no fault touched its buffer |
| `DriveRuns.WrittenIsReadBack` | src/filesystem/fatfs_raw.rs:176-198 | sectors written, at any address, are read back after any run on the table that leaves the drive and these sectors alone and loses no block of it |
| `DriveRuns.SyncedIsReadBack` | src/filesystem/fatfs_raw.rs:176-217 | once `CTRL_SYNC` has returned `RES_OK` they are on the device, and are read back also after runs that lose blocks |
| `DriveRuns.ApartBelow` | src/filesystem/fatfs_raw.rs:188-198 | below address 2^32, a run whose writes address other bytes leaves these alone |
| `DriveRuns.ClearedUntilAdd` | src/filesystem/fatfs_raw.rs:159-165 | after a status that cleared a slot every request there is answered not ready, along every run, until a drive is added |
| `DriveRuns.ConnectedStays` | src/filesystem/fatfs_raw.rs:145-156 | along every run `add_fs` displaces no connected drive |
| `DriveRuns.FullWitness` | src/filesystem/fatfs_raw.rs:145-156 | from the empty table: after fourteen drives it is full, with the last slot empty |
| `DriveRuns.OffTableWitness` | src/filesystem/fatfs_raw.rs:145-156 | from the empty table: with default disk 2, after thirteen drives the scan runs off it |
| `Drives.FatfsSysContext.constructor` | src/filesystem/fatfs_raw.rs:137-143 | a new table is empty, and no two slots share an object |
| `Drives.FatfsSysContext.AddFs` | src/filesystem/fatfs_raw.rs:145-156 | the whole table after an add; the drive displaced is dropped |
| `Drives.FatfsSysContext.DiskStatus` | src/filesystem/fatfs_raw.rs:159-165 | the whole table after a status; only a slot that is not ready is cleared; it is slot `pdrv` that is served, or the default disk for 0 |
| `Drives.FatfsSysContext.DiskRead` | src/filesystem/fatfs_raw.rs:176-186 | the whole table after a sector read, and the whole buffer, the prefix of a failed read included; it is slot `pdrv` that is served, or the default disk for 0 |
| `Drives.FatfsSysContext.DiskWrite` | src/filesystem/fatfs_raw.rs:188-198 | the whole table after a sector write; it is slot `pdrv` that is served, or the default disk for 0 |
| `Drives.FatfsSysContext.CtrlSync` | src/filesystem/fatfs_raw.rs:207-217 | the whole table after `CTRL_SYNC`, which flushes the cache of the slot; it is slot `pdrv` that is served, or the default disk for 0 |
| `Drives.FatfsSysContext.FirstFree` | src/filesystem/fatfs_raw.rs:146-155 | the loop of `add_fs` finds what the scan of the table finds |
| `Drives.FatfsSysContext.Replace` | src/filesystem/fatfs_raw.rs:132-135 | the slot changes and nothing else does; what was in it is flushed |
| `Drives.FatfsSysContext.SetDefaultDisk` | src/filesystem/fatfs_raw.rs:200-205 | for the commands that pass the test of line 201, the low four bits become the default disk |
| `Drives.Perform` | src/filesystem/fatfs_raw.rs:124-217 | one operation on the object is one step of the table and keeps its slots apart |
| `Drives.Replay` | src/filesystem/fatfs_raw.rs:124-217 | every run on the object is a run of the table and keeps its slots valid and apart |
| `Drives.DeviceHandle.ReadAt` | src/filesystem/fatfs_raw.rs:178-185 | seek and read on one device are a sector read |
| `Drives.DeviceHandle.WriteAt` | src/filesystem/fatfs_raw.rs:190-197 | seek and write on one device are a sector write |
| `Drives.RoundTrip` | src/filesystem/fatfs_raw.rs:176-198 | on the object: what is written to a drive is read back after any run in between that leaves the drive and these sectors alone |
| `Listing.LoadKeepsPrefix` | src/filesystem/fatfs_raw.rs:380-389 | one load keeps the children a prefix of the directory and completes them iff it succeeds |
| `Listing.LoadsKeepPrefix` | src/filesystem/fatfs_raw.rs:380-389 | the same over any number of failed and retried loads |
| `Listing.LoadStopsAtFault` | src/filesystem/fatfs_raw.rs:380-389 | a load succeeds iff none of its attempts fails, stops at the first that does, and has then one entry from each before it |
| `Listing.FinishedLoad` | src/filesystem/fatfs_raw.rs:381-383 | a finished listing is not read again |
| `Listing.HealthyLoadFinishes` | src/filesystem/fatfs_raw.rs:380-389 | a load without further faults completes the listing |
| `Listing.FatfsSysDir.LoadChildren` | src/filesystem/fatfs_raw.rs:380-389 | the loop does what the recursive load does |
| `Listing.FatfsSysDir.Iter` | src/filesystem/fatfs_raw.rs:432-435 | an iterator over the children cached so far, whether or not the load succeeded |
| `Listing.FatfsSysDirIter.Next` | src/filesystem/fatfs_raw.rs:454-458 | the item at the position, then one on |
| `Listing.Drain` | src/filesystem/fatfs_raw.rs:452-459 | an iterator yields the cached list in order and then `None` |
| `VecNewtypes.VecNewtype.FromVec` | src/vecwrapper.rs:16-21 | the claimed capacity leaves room for as much again, and is at least 512 |
| `VecNewtypes.VecNewtype.PushByte` | src/vecwrapper.rs:29-38 | append at the end, or an error and no change at capacity |
| `VecNewtypes.VecNewtype.PullByte` | src/vecwrapper.rs:39-49 | take from the front, or an error when empty |
| `UsbComm.InTransfer` | src/usb_comm.rs:126-145 | fills the free space in order, zero-padded; a failure leaves the buffer alone |
| `UsbComm.OutTransfer` | src/usb_comm.rs:147-164 | drains the buffer in order into one transfer, also when it is refused |
| `UsbComm.PullBytes` | src/usb_comm.rs:31-43 | the shim after a delivery, short or long |
| `UsbComm.Relay` | src/usb_comm.rs:126-164 | what one buffer sends another with that much space receives |
| `IdTables.StepKeepsInv` | src/capi_helpers/idstore.rs:65-176 | every operation keeps the maps coherent; a new id is one never issued before |
| `IdRuns.RunKeepsInv` | src/capi_helpers/idstore.rs:65-129 | so does every run that issues fewer than 2^64 ids; exactly which names lose their handle |
| `IdRuns.RunFromEmpty` | src/capi_helpers/idstore.rs:107-117 | file names and file handles have the same ids iff no close failed to flush |
| `IdRuns.StaleForever` | src/capi_helpers/idstore.rs:82-90 | after such a close the path names an id without a handle for good |
| `IdRuns.OpenedIsUsableIff` | src/capi_helpers/idstore.rs:82-90 | an opened id has a handle iff no failed close left the path behind |
| `IdRuns.LostCloseWitness` | src/capi_helpers/idstore.rs:82-117 | from the empty table: open, a close that cannot flush, and opening again yields the id without a handle |
| `IdRuns.WrapDisplacesIff` | src/capi_helpers/idstore.rs:65-71 | the insertion of a file keeps the table and all that is open iff the id it takes is not live |
| `IdRuns.WrapDisplacesDirIff` | src/capi_helpers/idstore.rs:73-80 | the same for the insertion of a directory, whose key sets do not show it |
| `IdRuns.WrapWitness` | src/capi_helpers/idstore.rs:65-71 | from the empty table: after 2^64 ids the next file takes the id of one that is still open |
| `IdRuns.EnumerationInOrder` | src/capi_helpers/idstore.rs:141-176 | the k-th read of an open directory yields entry k, whatever happens to other ids |
| `IdRuns.ReopenSharesCursor` | src/capi_helpers/idstore.rs:92-96 | opening an open directory again goes on at the position of its handle |
| `IdCalls.OpenFileIs` | src/capi_helpers/idstore.rs:82-90 | an id of the path, or the error of the file system and nothing changed, or a new id with handle and path and nothing else changed |
| `IdCalls.OpenDirIs` | src/capi_helpers/idstore.rs:92-105 | the same for directories, with the two names of the root and the position at 0 |
| `IdCalls.CloseFileIs` | src/capi_helpers/idstore.rs:107-117 | the answer is that of the flush; the handle goes, and the name iff the flush succeeded |
| `IdCalls.CloseDirIs` | src/capi_helpers/idstore.rs:119-129 | `Ok` iff the directory was open; the id is gone from all three maps and all else stays |
| `IdCalls.ReadDirIs` | src/capi_helpers/idstore.rs:141-176 | the entry at the position, which moves on by one; an error for an id that is not open |
| `IdCalls.ClosedDir` | src/capi_helpers/idstore.rs:92-129 | after a close every read of the id finds nothing along every run; the path opens again under a new id and from the first entry |
| `IdCalls.GoneForever` | src/capi_helpers/idstore.rs:141-188 | an id that was given out and is gone stays so along every run |
| `IdCalls.PathOfIssuer` | src/capi_helpers/idstore.rs:178-188 | the path of an id is that of the call that issued it along every run until it is closed, and then there is none |
| `IdStores.IdStore.constructor` | src/capi_helpers/idstore.rs:30-39 | a new store is empty and satisfies the invariant |
| `IdStores.IdStore.HasFile` | src/capi_helpers/idstore.rs:41-51 | the id of a path; in a coherent table the search order does not matter |
| `IdStores.IdStore.HasDir` | src/capi_helpers/idstore.rs:53-63 | the same for directories |
| `IdStores.IdStore.InsertFile` | src/capi_helpers/idstore.rs:65-71 | the whole table after an insertion, wrap-around included |
| `IdStores.IdStore.InsertDir` | src/capi_helpers/idstore.rs:73-80 | the same for directories, with the position at 0 |
| `IdStores.IdStore.OpenFile` | src/capi_helpers/idstore.rs:82-90 | an open path yields its id, any other asks the file system; all error cases |
| `IdStores.IdStore.OpenDir` | src/capi_helpers/idstore.rs:92-105 | the same for directories, with the two names of the root |
| `IdStores.IdStore.CloseFile` | src/capi_helpers/idstore.rs:107-117 | the whole table after a close, with and without a failed flush |
| `IdStores.IdStore.CloseDir` | src/capi_helpers/idstore.rs:119-129 | all three entries of the directory go |
| `IdStores.IdStore.ReadNextDirent` | src/capi_helpers/idstore.rs:141-176 | the entry at the position, which moves on also when there is none or it fails |
| `IdStores.IdStore.GetPathForId` | src/capi_helpers/idstore.rs:178-188 | the stored path of the id, and one exists iff the id names a file or a directory |
| `IdStores.Perform` | src/capi_helpers/idstore.rs:82-176 | one operation on the object is one step of the table and keeps the invariant |
| `Paths.CollapseLeavesDoubleIff` | src/capi_helpers/idstore.rs:191 | the one-pass replacement leaves a double slash iff there was a triple one |
| `Paths.SplitLast` | src/capi_helpers/idstore.rs:192-199 | parent, slash and name rebuild the path, and the name has no slash |
| `Paths.ParentIsSlashIff` | src/capi_helpers/idstore.rs:191-200 | the parent comes out as "/" iff the path is one component behind three or four slashes |
| `StatPaths.RunKeepsDenotes` | src/capi_helpers/idstore.rs:92-105 | on a fixed tree each open handle is the directory its stored path names |
| `StatPaths.FindEntryIs` | src/capi_helpers/idstore.rs:217-228 | by positions: size and attributes of the first entry of the name, or the first error in front of it, or not found |
| `StatPaths.LookupFinds` | src/capi_helpers/idstore.rs:190-229 | with nothing open, that search in the directory the parent names |
| `StatPaths.StatPathFinds` | src/capi_helpers/idstore.rs:190-229 | the same after any run, but for paths of one component behind three or four slashes |
| `StatPaths.StatPathUnmounted` | src/capi_helpers/idstore.rs:200-215 | with no file system a path is looked up iff its parent is open |
| `StatPaths.StatPathOrphan` | src/capi_helpers/idstore.rs:201-206 | a parent with a name and no handle is an unknown error, and never happens in a coherent table |
| `StatPaths.StatPathTransparent` | src/capi_helpers/idstore.rs:190-229 | after any run a lookup does not depend on which directories are open |
| `StatPaths.PlainPathTransparent` | src/capi_helpers/idstore.rs:190-229 | in particular for every path without three slashes in a row |
| `StatPaths.SlashedHasTriple` | src/capi_helpers/idstore.rs:191 | the paths excepted have three slashes in a row, for without the stripped path has no double slash |
| `StatPaths.SlashedComponentDepends` | src/capi_helpers/idstore.rs:200-211 | what the two ways of looking such a path up find |
| `StatPaths.TransparentIff` | src/capi_helpers/idstore.rs:200-211 | with "/" open and refused by the file system, transparency holds iff the path is not of that form |
| `StatPaths.SlashedWitness` | src/capi_helpers/idstore.rs:190-211 | "///a" is found with "/" open and not without |
| `LockRuns.StepKeepsInv` | src/capi_helpers/usbfs.rs:77-259 | every step of every thread keeps mutual exclusion, live pointers and live dependencies |
| `LockRuns.LifetimeChain` | src/capi_helpers/usbfs.rs:135-238 | in every interleaving store implies file system implies context, boxes in use are alive, none is freed twice |
| `LockRuns.FsFreedUnused` | src/capi_helpers/usbfs.rs:205-218 | a file system is freed only when no store has a handle into it |
| `LockRuns.SharedUseIff` | src/capi_helpers/usbfs.rs:94-118 | two threads use a box at once iff one is in `usbFsStatFilesystem` and the other in the store, which has the file system; the box is that file system |
| `LockSteps.ExitFsInv` | src/capi_helpers/usbfs.rs:205-218 | freeing the file system leaves nothing dangling, with any other threads anywhere |
| `LockSteps.ExitUsbInv` | src/capi_helpers/usbfs.rs:222-235 | no context is freed while a file system uses it |
| `LockSteps.InitMountInv` | src/capi_helpers/usbfs.rs:150-157 | mounting keeps the invariant while other threads run |
| `LockSteps.InitSetFsInv` | src/capi_helpers/usbfs.rs:156-161 | publishing the file system keeps it |
| `LockCalls.ChecksAre` | src/capi_helpers/usbfs.rs:121-139 | in every interleaving: where the pointers are read, `usbFsInitialize` ends and `usbFsIsReady` goes on iff all three are set, and nothing changes |
| `LockCalls.InitializeAgain` | src/capi_helpers/usbfs.rs:135-139 | on an initialized library a `usbFsInitialize` that nobody interrupts makes and frees nothing, at any point of it |
| `LockCalls.LoneInitialize` | src/capi_helpers/usbfs.rs:135-162 | the whole state after a lone `usbFsInitialize`, on a library initialized or not |
| `LockCalls.LoneInitializeFails` | src/capi_helpers/usbfs.rs:140-154 | the whole state after one that finds no drive, and after one that fails to mount |
| `LockCalls.LoneIsReady` | src/capi_helpers/usbfs.rs:240-259 | a lone `usbFsIsReady` works on the context iff the library is initialized |
| `LockCalls.ExitStepsAre` | src/capi_helpers/usbfs.rs:189-235 | in every interleaving: each part of `usbFsExit` zeroes its pointer and frees its box |
| `LockCalls.LoneExit` | src/capi_helpers/usbfs.rs:168-238 | the whole state after a lone `usbFsExit`: three null pointers, their boxes freed, the store first |
| `LockCalls.NullChecksAre` | src/capi_helpers/usbfs.rs:81-118 | a call ends at a null pointer, and goes on otherwise |
| `LockCalls.StoreGoesOn` | src/capi_helpers/idstore.rs:82-90 | a call on the store may take the file system on top, and go on in it under the store's mutex |
| `LockCalls.HandlesAre` | src/capi_helpers/idstore.rs:65-129 | opening adds a handle into the current file system, closing takes one away, and all else stays |
| `Leaks.StepLeaks` | src/capi_helpers/usbfs.rs:148-161 | a step puts out of reach exactly the box `usbFsInitialize` publishes over |
| `Leaks.LeakedAreOverwritten` | src/capi_helpers/usbfs.rs:121-259 | from the start, along every run: the boxes never freed are those published over; every box is there or was freed, not both |
| `Leaks.ExitLeavesLeaked` | src/capi_helpers/usbfs.rs:168-238 | a lone `usbFsExit` leaves exactly the leaked boxes |
| `LockWitnesses.FailedMountLeaks` | src/capi_helpers/usbfs.rs:148-154 | a schedule from the start: a failed mount, and the next success loses the first context |
| `Deadlock.DeadlockFree` | src/capi_helpers/usbfs.rs:121-259 | without a thread waiting in `usbFsInitialize` some thread in a call can step |
| `Deadlock.NeverStuck` | src/capi_helpers/usbfs.rs:240-547 | the same along every run through all entry points but `usbFsInitialize` |
| `Deadlock.CallsComplete` | src/capi_helpers/usbfs.rs:121-238 | from every state in which `usbFsInitialize` meets no other call all calls in progress can be completed, and a lone `usbFsInitialize` succeeds |
| `Deadlock.SerialInitCompletes` | src/capi_helpers/usbfs.rs:121-259 | from the start, along every run in which `usbFsInitialize` meets no other call, some thread in a call can step, and all calls can be completed |
| `Deadlock.StuckIsInitCycle` | src/capi_helpers/usbfs.rs:150-161 | stuck threads always contain `usbFsInitialize` and an id-store holder waiting for each other |
| `Deadlock.MutualWaitForever` | src/capi_helpers/usbfs.rs:150-161 | two such threads never move again |
| `Doom.CompletableIff` | src/capi_helpers/usbfs.rs:121-259 | all calls in progress can be completed iff no two threads have crossed |
| `Doom.RunCompletableIff` | src/capi_helpers/usbfs.rs:121-259 | the same along every run from the start; and without a crossing some thread in a call can step, if there is one |
| `Doom.DoomedForever` | src/capi_helpers/usbfs.rs:136-162 | two threads that have crossed stay so along every run |
| `Doom.ApartCompletes` | src/capi_helpers/usbfs.rs:121-259 | from the start, all calls can be completed along every run in which `usbFsInitialize` overlaps only with calls that take no second mutex under that of the id store |
| `LockWitnesses.InitializeCanDeadlock` | src/capi_helpers/usbfs.rs:123-162 | a schedule from the start that ends with two threads waiting for each other |
| `LockWitnesses.SharedUseWitness` | src/capi_helpers/usbfs.rs:290-302 | a schedule from the start that ends with two threads in one file system |

## Left out

- `OffsetScsi.OffsetScsiDevice.Seek`: `SeekFrom::End` is unimplemented in the source, and a relative seek in front of the partition underflows there; the model requires a target of at least 0.
- `BlockCache.State.RawIdx`: addresses are unbounded numbers; that `usize` ends at 2^64 is not modelled.
- `CacheFrame.NothingBelowPartition`: claims nothing about bytes behind the partition, because the code checks no upper bound.
- `CacheFaults.FillCoherentIff`: a faulty read is taken to deliver a whole block or nothing, and a faulty write to store nothing.
- `AddressCut.WritesAboveIff`: over whole runs the model has one direction, `CacheFrame.RunPinned`; a later write can put back what an earlier one changed.
- `Sectors.ReadSectorsExact`: like `WriteSectorsExact`, `WriteSectorsPinned` and `OtherSectorsStay` for sectors below address 2^32; `Sectors.ShowsIff` and `DriveRuns.WrittenIsReadBack` have no bound.
- `CacheFaults.RetriedFlushStoresIff`: whether a device takes a write of no bytes is left open, because the `scsi` crate between the cache and the transfer is not visible.
- `Drives.FatfsSysContext.DiskRead`: requires an index inside the table, where the source panics for others; `DriveTables.Step` answers those with the panic and leaves the table as it is.
- `Drives.FatfsSysContext.AddFs`: modelled by itself, because the dispatch in `disk_ioctl` never reaches it (`DriveTables.AddCodeSetsDefault`).
- `Drives.FatfsSysContext.SessionChanged`: whether a drive is connected is whatever the USB session reports; it changes between calls, not during one.
- `DriveRuns.DriveIsArray`: the sizes and counts that `disk_ioctl` reports are not modelled.
- `Listing.Load`: a failed `f_readdir` is taken not to advance, and the directory not to change while it is listed.
- `UsbComm.InTransfer`: the alignment and allocation of the shim are not modelled; a shim is a zero-filled array of the size asked for.
- `IdRuns.EnumerationInOrder`: the position is an unbounded number, and the directory is the same at each read.
- `StatPaths.StatPath`: the file system is any function from paths to directories, fixed during a run; the order of entries is that of its listing.
- `LockRuns.LifetimeChain`: a panic inside a guard (a poisoned mutex) is not modelled, and neither is the log file of `usbFsExit`, without which that call does nothing.
- `LockCalls.ChecksAre`: the codes the entry points return are not modelled; the point a call goes on to stands for them.
- `LockRuns.Uses`: a call on the store either ends, takes the file system once, opens or closes a handle once; calls that do several of these are runs of several such calls.
- The error codes of `err.rs`, the enum dispatch and entry types of `filesystem/mod.rs` and `fatfs_rs.rs`: finite tables.
- `usbFsSeekFile` offset decoding, `FatfsSysFile`, `iosupport.rs`, `main.rs`, `build.rs`: thin wrappers, I/O or a console.
- The crates `fatfs`, `fatfs_sys`, `scsi`, `mbr_nostd` and `libnx_rs`: not visible; contracts stand for what is used of them.
