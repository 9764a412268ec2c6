/**
 The lock and lifetime protocol of src/capi_helpers/usbfs.rs: any number of threads in
 the C entry points, three mutexes, each guarding a pointer to a heap box. A step of a
 thread is what it does between two points at which another can get in between.
 */
module Locks {
  import opened Wrappers

  datatype Lock = Ids | Fs | Usb

  /** Who asked whether the library is initialized. */
  datatype Caller = IsInitialized | IsReady | Initialize

  /** Where a thread is; a state with `Want` in front waits for a mutex. */
  datatype PC =
    | Idle
    // usbFsIsInitialized, on its own or from another entry point
    | WantProbeIds(who: Caller) | WantProbeUsb(who: Caller) | WantProbeFs(who: Caller) | ProbeRead(who: Caller)
    // calls that work on the id store, some of which take the file system on top
    | WantStore | StoreCheck | StoreWork | WantStoreFs | StoreFsCheck | StoreFsWork | StoreTail(iterated: nat)
    // usbFsStatFilesystem
    | WantFs | FsCheck | FsWork
    // the second half of usbFsIsReady
    | WantUsb | UsbCheck | UsbWork
    // usbFsExit
    | WantExitIds | ExitDropStore | WantExitFs | ExitDropFs | WantExitUsb | ExitDropUsb
    // usbFsInitialize behind its first check
    | InitBuild
    | WantInitUsb(ctx: nat) | InitSetUsb(ctx: nat) | InitMount(ctx: nat)
    | WantInitFs(fs: nat) | InitSetFs(fs: nat)
    | WantInitIds(store: nat) | InitSetIds(store: nat)

  /** The mutexes whose guards are alive at a point. */
  function Holds(pc: PC): set<Lock> {
    match pc
    case WantProbeUsb(_) => {Ids}
    case WantProbeFs(_) => {Ids, Usb}
    case ProbeRead(_) => {Ids, Usb, Fs}
    case StoreCheck => {Ids}
    case StoreWork => {Ids}
    case WantStoreFs => {Ids}
    case StoreFsCheck => {Ids, Fs}
    case StoreFsWork => {Ids, Fs}
    case StoreTail(_) => {Ids}
    case FsCheck => {Fs}
    case FsWork => {Fs}
    case UsbCheck => {Usb}
    case UsbWork => {Usb}
    case ExitDropStore => {Ids}
    case WantExitFs => {Ids}
    case ExitDropFs => {Ids, Fs}
    case WantExitUsb => {Ids, Fs}
    case ExitDropUsb => {Ids, Fs, Usb}
    case InitSetUsb(_) => {Usb}
    case InitMount(_) => {Usb}
    case WantInitFs(_) => {Usb}
    case InitSetFs(_) => {Usb, Fs}
    case WantInitIds(_) => {Usb, Fs}
    case InitSetIds(_) => {Usb, Fs, Ids}
    case _ => {}
  }

  /** The mutex a point waits for, and the point behind it. */
  function Wants(pc: PC): Option<(Lock, PC)> {
    match pc
    case WantProbeIds(who) => Some((Ids, WantProbeUsb(who)))
    case WantProbeUsb(who) => Some((Usb, WantProbeFs(who)))
    case WantProbeFs(who) => Some((Fs, ProbeRead(who)))
    case WantStore => Some((Ids, StoreCheck))
    case WantStoreFs => Some((Fs, StoreFsCheck))
    case WantFs => Some((Fs, FsCheck))
    case WantUsb => Some((Usb, UsbCheck))
    case WantExitIds => Some((Ids, ExitDropStore))
    case WantExitFs => Some((Fs, ExitDropFs))
    case WantExitUsb => Some((Usb, ExitDropUsb))
    case WantInitUsb(c) => Some((Usb, InitSetUsb(c)))
    case WantInitFs(f) => Some((Fs, InitSetFs(f)))
    case WantInitIds(s) => Some((Ids, InitSetIds(s)))
    case _ => None
  }

  /** A box: a file system uses its usb context, a store the file systems its handles are from. */
  datatype Box = Ctx | FsBox(ctx: nat) | Store(handles: set<nat>)

  datatype State = State(
    usb: Option<nat>,
    fs: Option<nat>,
    ids: Option<nat>,
    heap: map<nat, Box>,
    next: nat,
    freed: seq<nat>,
    pcs: map<nat, PC>)
  {
    function Pc(t: nat): PC {
      if t in pcs then pcs[t] else Idle
    }

    /** No guard of the mutex is alive. */
    ghost predicate Free(l: Lock) {
      forall t :: t in pcs ==> l !in Holds(pcs[t])
    }

    function At(t: nat, pc: PC): State {
      this.(pcs := pcs[t := pc])
    }

    /** The handles of the current store become `handles`. */
    function WithHandles(handles: set<nat>): State
      requires ids.Some?
    {
      this.(heap := heap[ids.value := Store(handles)])
    }

    /** The three parts of `usbFsExit`: free what the pointer points to, and zero it. */
    function ExitIds(): State {
      if ids.Some? then this.(ids := None).Release(ids.value) else this
    }

    function ExitFs(): State {
      if fs.Some? then this.(fs := None).Release(fs.value) else this
    }

    function ExitUsb(): State {
      if usb.Some? then this.(usb := None).Release(usb.value) else this
    }

    /** `Box::into_raw(Box::new(..))`. */
    function Alloc(b: Box): State {
      this.(heap := heap[next := b], next := next + 1)
    }

    /** `drop(Box::from_raw(..))`. */
    function Release(b: nat): State {
      this.(heap := heap - {b}, freed := freed + [b])
    }
  }

  predicate HasCtx(heap: map<nat, Box>, b: nat) { b in heap && heap[b].Ctx? }

  predicate HasFs(heap: map<nat, Box>, b: nat) { b in heap && heap[b].FsBox? }

  predicate HasStore(heap: map<nat, Box>, b: nat) { b in heap && heap[b].Store? }

  const START := State(None, None, None, map[], 0, [], map[])

  /** What the world decides: which call starts, what fails, what a call goes on to do. */
  datatype Choice =
    | Call(pc: PC)
    | Go
    | Fail
    | TakeFs
    | OpenHandle
    | CloseHandles(fs: nat)
    | DropFsGuard

  predicate IsEntry(pc: PC) {
    pc.WantProbeIds? || pc == WantStore || pc == WantFs || pc == WantExitIds
  }

  /** Where a thread that only looks at the pointers goes on to. */
  function Quiet(g: State, pc: PC, c: Choice): Option<PC> {
    match (pc, c)
    case (ProbeRead(who), Go) =>
      var initialized := g.ids.Some? && g.usb.Some? && g.fs.Some?;
      Some(match who
           case IsInitialized => Idle
           case IsReady => if initialized then WantUsb else Idle
           case Initialize => if initialized then Idle else InitBuild)
    case (StoreCheck, Go) => Some(if g.ids.Some? then StoreWork else Idle)
    case (StoreWork, Go) => Some(Idle)
    case (StoreWork, TakeFs) => Some(WantStoreFs)
    case (StoreFsCheck, Go) => Some(if g.fs.Some? then StoreFsWork else Idle)
    case (StoreFsWork, Go) => Some(Idle)
    case (StoreFsWork, DropFsGuard) => if g.fs.Some? then Some(StoreTail(g.fs.value)) else None
    case (StoreTail(_), Go) => Some(Idle)
    case (FsCheck, Go) => Some(if g.fs.Some? then FsWork else Idle)
    case (FsWork, Go) => Some(Idle)
    case (UsbCheck, Go) => Some(if g.usb.Some? then UsbWork else Idle)
    case (UsbWork, Go) => Some(Idle)
    case (InitBuild, Fail) => Some(Idle)
    case (InitMount(_), Fail) => Some(Idle)
    case _ => None
  }

  /** What a thread that changes pointers or boxes does. */
  function Change(g: State, t: nat, pc: PC, c: Choice): Option<State> {
    match (pc, c)
    case (StoreWork, CloseHandles(f)) =>
      if g.ids.Some? && HasStore(g.heap, g.ids.value)
      then Some(g.WithHandles(g.heap[g.ids.value].handles - {f}).At(t, Idle)) else None
    case (StoreFsWork, OpenHandle) =>
      if g.ids.Some? && HasStore(g.heap, g.ids.value) && g.fs.Some?
      then Some(g.WithHandles(g.heap[g.ids.value].handles + {g.fs.value}).At(t, Idle)) else None
    case (ExitDropStore, Go) => Some(g.ExitIds().At(t, WantExitFs))
    case (ExitDropFs, Go) => Some(g.ExitFs().At(t, WantExitUsb))
    case (ExitDropUsb, Go) => Some(g.ExitUsb().At(t, Idle))
    case (InitBuild, Go) => Some(g.Alloc(Ctx).At(t, WantInitUsb(g.next)))
    case (InitSetUsb(ctx), Go) => Some(g.(usb := Some(ctx)).At(t, InitMount(ctx)))
    case (InitMount(ctx), Go) => Some(g.Alloc(FsBox(ctx)).At(t, WantInitFs(g.next)))
    case (InitSetFs(fs), Go) => Some(g.(fs := Some(fs)).Alloc(Store({})).At(t, WantInitIds(g.next)))
    case (InitSetIds(store), Go) => Some(g.(ids := Some(store)).At(t, Idle))
    case _ => None
  }

  /** The step of thread `t`, if it can take one. */
  ghost function Step(g: State, t: nat, c: Choice): Option<State> {
    var pc := g.Pc(t);
    if Wants(pc).Some? then
      if c == Go && g.Free(Wants(pc).value.0) then Some(g.At(t, Wants(pc).value.1)) else None
    else if pc == Idle then
      if c.Call? && IsEntry(c.pc) then Some(g.At(t, c.pc)) else None
    else
      match Quiet(g, pc, c)
      case Some(next) => Some(g.At(t, next))
      case None => Change(g, t, pc, c)
  }

  // ---------- What every interleaving keeps ----------

  /** No mutex has two guards. */
  ghost predicate Exclusive(g: State) {
    forall t, u :: t in g.pcs && u in g.pcs && t != u ==> Holds(g.pcs[t]) !! Holds(g.pcs[u])
  }

  /** The pointers are null or point to a box of their kind, and the store needs the other two. */
  ghost predicate Pointers(g: State) {
    && (g.usb.Some? ==> HasCtx(g.heap, g.usb.value))
    && (g.fs.Some? ==> HasFs(g.heap, g.fs.value) && g.usb.Some?)
    && (g.ids.Some? ==> HasStore(g.heap, g.ids.value) && g.fs.Some?)
  }

  /** Nothing alive uses a box that is not. */
  ghost predicate Closed(g: State) {
    && (forall b :: HasFs(g.heap, b) ==> HasCtx(g.heap, g.heap[b].ctx))
    && (forall b, f :: HasStore(g.heap, b) && f in g.heap[b].handles ==> HasFs(g.heap, f))
  }

  /** Boxes are numbered as they come, and none is freed twice. */
  ghost predicate Numbered(g: State) {
    && (forall b :: b in g.heap ==> b < g.next)
    && (forall i :: 0 <= i < |g.freed| ==> g.freed[i] < g.next && g.freed[i] !in g.heap)
    && (forall i, j :: 0 <= i < j < |g.freed| ==> g.freed[i] != g.freed[j])
  }

  /** Only the current store has handles from the current file system. */
  ghost predicate FsUsers(g: State) {
    g.fs.Some? ==> forall b :: HasStore(g.heap, b) && g.fs.value in g.heap[b].handles ==> g.ids == Some(b)
  }

  /** A file system that is mounted but not yet published. */
  ghost predicate Mounting(g: State, b: nat) {
    exists t :: t in g.pcs && (g.pcs[t] == WantInitFs(b) || g.pcs[t] == InitSetFs(b))
  }

  /** Only the current file system, or one being mounted, uses the current context. */
  ghost predicate CtxUsers(g: State) {
    g.usb.Some? ==> forall b :: b in g.heap && g.heap[b] == FsBox(g.usb.value) ==> g.fs == Some(b) || Mounting(g, b)
  }

  ghost predicate Unused(heap: map<nat, Box>, c: nat) {
    forall b :: b in heap ==> heap[b] != FsBox(c)
  }

  ghost predicate NoHandles(heap: map<nat, Box>, f: nat) {
    forall b :: HasStore(heap, b) ==> f !in heap[b].handles
  }

  /** `f` is the only file system on the current context, and nothing uses it yet. */
  ghost predicate Mounted(g: State, f: nat) {
    && HasFs(g.heap, f) && g.fs != Some(f) && NoHandles(g.heap, f)
    && g.usb == Some(g.heap[f].ctx)
    && forall b :: b in g.heap && b != f ==> g.heap[b] != g.heap[f]
  }

  /** The file system is published, nothing uses it yet, and the store is empty. */
  ghost predicate Published(g: State, s: nat) {
    && s in g.heap && g.heap[s] == Store({}) && g.ids != Some(s)
    && g.fs.Some? && NoHandles(g.heap, g.fs.value)
  }

  /** What a thread can rely on at a point. */
  ghost predicate Local(g: State, pc: PC) {
    match pc
    case StoreWork => g.ids.Some?
    case WantStoreFs => g.ids.Some?
    case StoreFsCheck => g.ids.Some?
    case StoreFsWork => g.ids.Some? && g.fs.Some?
    case StoreTail(f) => g.ids.Some? && HasFs(g.heap, f)
    case FsWork => g.fs.Some?
    case UsbWork => g.usb.Some?
    case WantExitFs => g.ids.None?
    case ExitDropFs => g.ids.None?
    case WantExitUsb => g.ids.None? && g.fs.None?
    case ExitDropUsb => g.ids.None? && g.fs.None?
    case WantInitUsb(c) => HasCtx(g.heap, c) && g.usb != Some(c) && Unused(g.heap, c)
    case InitSetUsb(c) => HasCtx(g.heap, c) && g.usb != Some(c) && Unused(g.heap, c)
    case InitMount(c) => g.usb == Some(c) && Unused(g.heap, c)
    case WantInitFs(f) => Mounted(g, f)
    case InitSetFs(f) => Mounted(g, f)
    case WantInitIds(s) => Published(g, s)
    case InitSetIds(s) => Published(g, s)
    case _ => true
  }

  ghost predicate Locals(g: State) {
    forall t :: t in g.pcs ==> Local(g, g.pcs[t])
  }

  /** The box a thread has made and not yet published. */
  function Pending(pc: PC): Option<nat> {
    match pc
    case WantInitUsb(c) => Some(c)
    case InitSetUsb(c) => Some(c)
    case WantInitFs(f) => Some(f)
    case InitSetFs(f) => Some(f)
    case WantInitIds(s) => Some(s)
    case InitSetIds(s) => Some(s)
    case _ => None
  }

  ghost predicate PendingApart(g: State) {
    forall t, u :: t in g.pcs && u in g.pcs && t != u && Pending(g.pcs[t]).Some?
      ==> Pending(g.pcs[t]) != Pending(g.pcs[u])
  }

  /** What holds of pointers and boxes, wherever the threads are. */
  ghost predicate Memory(g: State) {
    Pointers(g) && Closed(g) && Numbered(g) && FsUsers(g) && CtxUsers(g)
  }

  ghost predicate Inv(g: State) {
    Exclusive(g) && PendingApart(g) && Locals(g) && Memory(g)
  }
}
