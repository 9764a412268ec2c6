/** What every run of the threads keeps, and when they can all come to an end. */
module LockRuns {
  import opened Wrappers
  import opened Locks
  import opened LockSteps

  // ---------- Safety ----------

  lemma TakenLocal(g: State, pc: PC)
    requires Wants(pc).Some? && Local(g, pc)
    ensures Local(g, Wants(pc).value.1) && KeepsMounting(pc, Wants(pc).value.1)
  {
  }

  lemma TakeInv(g: State, t: nat)
    requires Inv(g) && Wants(g.Pc(t)).Some? && g.Free(Wants(g.Pc(t)).value.0)
    ensures Inv(g.At(t, Wants(g.Pc(t)).value.1))
  {
    PcIsIn(g, t);
    FreeFits(g, t);
    LocalAt(g, t);
    TakenLocal(g, g.Pc(t));
    hide Inv, Local, Fits, Holds;
    MoveKeepsInv(g, t, Wants(g.Pc(t)).value.1);
  }

  /** A thread that goes on to a point with no more guards and nothing new to rely on. */
  lemma RelaxInv(g: State, t: nat, pc: PC)
    requires Inv(g) && t in g.pcs && Holds(pc) <= Holds(g.pcs[t]) && Pending(pc).None?
    requires Local(g, pc) && !g.pcs[t].WantInitFs? && !g.pcs[t].InitSetFs?
    ensures Inv(g.At(t, pc))
  {
    LessFits(g, t, pc);
    hide Inv, Local, Fits, Holds, Pending;
    MoveKeepsInv(g, t, pc);
  }

  lemma EnterInv(g: State, t: nat, pc: PC)
    requires Inv(g) && g.Pc(t) == Idle && IsEntry(pc)
    ensures Inv(g.At(t, pc))
  {
    assert Fits(g, t, pc);
    assert Local(g, pc);
    hide Inv, Local, Fits;
    MoveKeepsInv(g, t, pc);
  }

  lemma QuietLocal(g: State, pc: PC, c: Choice)
    requires Local(g, pc) && Pointers(g) && Quiet(g, pc, c).Some?
    ensures var next := Quiet(g, pc, c).value;
            && Local(g, next) && Holds(next) <= Holds(pc) && Pending(next).None?
            && !pc.WantInitFs? && !pc.InitSetFs?
  {
  }

  lemma QuietInv(g: State, t: nat, c: Choice)
    requires Inv(g) && t in g.pcs && Quiet(g, g.pcs[t], c).Some?
    ensures Inv(g.At(t, Quiet(g, g.pcs[t], c).value))
  {
    LocalAt(g, t);
    InvParts(g);
    QuietLocal(g, g.pcs[t], c);
    hide Inv, Local, Holds, Pending, Quiet, Memory, Pointers, Closed, Numbered, FsUsers, CtxUsers;
    RelaxInv(g, t, Quiet(g, g.pcs[t], c).value);
  }

  lemma ChangeInv(g: State, t: nat, c: Choice)
    requires Inv(g) && t in g.pcs && Change(g, t, g.pcs[t], c).Some?
    ensures Inv(Change(g, t, g.pcs[t], c).value)
  {
    hide Inv;
    match g.pcs[t]
    case StoreWork => HandlesInv(g, t, g.heap[g.ids.value].handles - {c.fs});
    case StoreFsWork => HandlesInv(g, t, g.heap[g.ids.value].handles + {g.fs.value});
    case ExitDropStore => ExitIdsInv(g, t);
    case ExitDropFs => ExitFsInv(g, t);
    case ExitDropUsb => ExitUsbInv(g, t);
    case InitBuild => InitBuildInv(g, t);
    case InitSetUsb(ctx) => InitSetUsbInv(g, t, ctx);
    case InitMount(ctx) => InitMountInv(g, t, ctx);
    case InitSetFs(fs) => InitSetFsInv(g, t, fs);
    case InitSetIds(store) => InitSetIdsInv(g, t, store);
  }

  /** Every step of every thread keeps the invariant, whatever the others are doing. */
  lemma StepKeepsInv(g: State, t: nat, c: Choice)
    requires Inv(g) && Step(g, t, c).Some?
    ensures Inv(Step(g, t, c).value)
  {
    hide Inv, Quiet, Change;
    PcIsIn(g, t);
    if Wants(g.Pc(t)).Some? {
      TakeInv(g, t);
    } else if g.Pc(t) == Idle {
      EnterInv(g, t, c.pc);
    } else if Quiet(g, g.Pc(t), c).Some? {
      QuietInv(g, t, c);
    } else {
      ChangeInv(g, t, c);
    }
  }

  /** A schedule: which thread moves next, and what the world decides for it. */
  type Schedule = seq<(nat, Choice)>

  ghost function Run(g: State, sched: Schedule): Option<State>
    decreases |sched|
  {
    if sched == [] then Some(g)
    else
      match Step(g, sched[0].0, sched[0].1)
      case None => None
      case Some(h) => Run(h, sched[1..])
  }

  lemma {:induction false} RunKeepsInv(g: State, sched: Schedule)
    requires Inv(g) && Run(g, sched).Some?
    ensures Inv(Run(g, sched).value)
    decreases |sched|
  {
    hide Inv, Step;
    if sched == [] {
    } else {
      StepKeepsInv(g, sched[0].0, sched[0].1);
      RunKeepsInv(Step(g, sched[0].0, sched[0].1).value, sched[1..]);
    }
  }

  function OptSet(b: Option<nat>): set<nat> {
    if b.Some? then {b.value} else {}
  }

  /** The store and the file systems of its handles. */
  ghost function OpenedBy(g: State): set<nat> {
    if g.ids.Some? && HasStore(g.heap, g.ids.value) then {g.ids.value} + g.heap[g.ids.value].handles else {}
  }

  /** The boxes a thread uses at a point; dropping a store or a file system flushes through it. */
  ghost function Uses(g: State, pc: PC): set<nat> {
    match pc
    case StoreWork => OpenedBy(g)
    case WantStoreFs => OpenedBy(g)
    case StoreFsCheck => OpenedBy(g)
    case ExitDropStore => OpenedBy(g)
    case ExitDropFs => OptSet(g.fs)
    case StoreFsWork => OpenedBy(g) + OptSet(g.fs)
    case StoreTail(f) => OpenedBy(g) + {f}
    case FsWork => OptSet(g.fs)
    case UsbWork => OptSet(g.usb)
    case _ => {}
  }

  /** Box `b` is alive, and so is the context of a file system. */
  ghost predicate Alive(g: State, b: nat) {
    b in g.heap && (g.heap[b].FsBox? ==> HasCtx(g.heap, g.heap[b].ctx))
  }

  lemma UsesAlive(g: State, pc: PC)
    requires Local(g, pc) && Pointers(g) && Closed(g)
    ensures forall b :: b in Uses(g, pc) ==> Alive(g, b)
  {
    forall b | b in Uses(g, pc) ensures Alive(g, b) {
      if HasFs(g.heap, b) {
        assert HasCtx(g.heap, g.heap[b].ctx);
      }
      if g.ids.Some? && b in g.heap[g.ids.value].handles {
        assert HasFs(g.heap, b);
      }
    }
  }

  /**
   In every interleaving from the start, `usbFsInitialize` and its failures included: a
   live store means a live file system means a live context, a thread uses live
   boxes only, and no box is freed twice.
   */
  lemma LifetimeChain(sched: Schedule)
    requires Run(START, sched).Some?
    ensures var g := Run(START, sched).value;
            && Pointers(g)
            && (forall t, b :: t in g.pcs && b in Uses(g, g.pcs[t]) ==> Alive(g, b))
            && (forall i, j :: 0 <= i < j < |g.freed| ==> g.freed[i] != g.freed[j])
            && (forall i :: 0 <= i < |g.freed| ==> g.freed[i] !in g.heap)
  {
    RunKeepsInv(START, sched);
    var g := Run(START, sched).value;
    InvParts(g);
    hide Run, Inv, Local, Uses, Pointers, Closed, FsUsers, CtxUsers;
    forall t, b | t in g.pcs && b in Uses(g, g.pcs[t]) ensures Alive(g, b) {
      LocalAt(g, t);
      UsesAlive(g, g.pcs[t]);
    }
  }

  /**
   The points at which two threads work on the file system at once: `usbFsStatFilesystem`
   under its own mutex, and a call on the store, through a handle, under the store's.
   */
  ghost predicate Clash(g: State, a: PC, b: PC) {
    && b == FsWork && g.fs.Some?
    && match a
       case StoreWork => g.fs.value in OpenedBy(g)
       case WantStoreFs => g.fs.value in OpenedBy(g)
       case ExitDropStore => g.fs.value in OpenedBy(g)
       case StoreTail(f) => f == g.fs.value || g.fs.value in OpenedBy(g)
       case _ => false
  }

  /** What threads use apart from each other: the context on the one hand, store and file systems on the other. */
  lemma UsesKinds(g: State, pc: PC)
    requires Local(g, pc) && Pointers(g) && Closed(g)
    ensures forall b :: b in Uses(g, pc) ==> b in g.heap && (g.heap[b].Ctx? <==> pc == UsbWork)
  {
    forall b | b in Uses(g, pc) ensures b in g.heap && (g.heap[b].Ctx? <==> pc == UsbWork) {
      if g.ids.Some? && b in g.heap[g.ids.value].handles {
        assert HasFs(g.heap, b);
      }
    }
  }

  lemma UsesWithout(g: State, pc: PC)
    requires Ids !in Holds(pc) && Local(g, pc)
    ensures Uses(g, pc) == if pc == FsWork then OptSet(g.fs) else if pc == UsbWork then OptSet(g.usb) else {}
    ensures pc == FsWork ==> Fs in Holds(pc) && g.fs.Some?
  {
  }

  lemma UsesOfStore(g: State, a: PC)
    requires Ids in Holds(a) && Fs !in Holds(a) && Local(g, a) && g.fs.Some?
    ensures g.fs.value in Uses(g, a) <==> Clash(g, a, FsWork)
  {
  }

  lemma ClashHolds(g: State, a: PC, b: PC)
    requires Clash(g, a, b)
    ensures b == FsWork && Ids in Holds(a) && Fs !in Holds(a) && Ids !in Holds(b) && Fs in Holds(b)
  {
  }

  lemma NoTwoHold(g: State, t: nat, u: nat, l: Lock)
    requires Exclusive(g) && t in g.pcs && u in g.pcs && t != u
    ensures !(l in Holds(g.pcs[t]) && l in Holds(g.pcs[u]))
  {
    hide Holds;
  }

  lemma UsbHeld()
    ensures Holds(UsbWork) == {Usb} && Holds(FsWork) == {Fs}
  {
  }

  /** A thread with the store's mutex, and one without. */
  lemma StoreAgainst(g: State, a: PC, b: PC)
    requires Local(g, a) && Local(g, b) && Ids in Holds(a) && Holds(a) !! Holds(b)
    requires forall x :: x in Uses(g, a) ==> x in g.heap && (g.heap[x].Ctx? <==> a == UsbWork)
    requires forall x :: x in Uses(g, b) ==> x in g.heap && (g.heap[x].Ctx? <==> b == UsbWork)
    ensures Uses(g, a) * Uses(g, b) != {} <==> Clash(g, a, b) || Clash(g, b, a)
    ensures Uses(g, a) * Uses(g, b) <= OptSet(g.fs)
  {
    hide Uses, Local, Clash, Holds;
    UsbHeld();
    assert Ids !in Holds(b);
    UsesWithout(g, b);
    if Clash(g, b, a) {
      ClashHolds(g, b, a);
    } else if b == FsWork {
      UsesOfStore(g, a);
      if g.fs.value in Uses(g, a) {
        assert g.fs.value in Uses(g, a) * Uses(g, b);
      }
    } else if Clash(g, a, b) {
      ClashHolds(g, a, b);
    }
  }

  lemma SharedParts(g: State, a: PC, b: PC)
    requires Local(g, a) && Local(g, b) && Pointers(g)
    requires Holds(a) !! Holds(b)
    requires forall x :: x in Uses(g, a) ==> x in g.heap && (g.heap[x].Ctx? <==> a == UsbWork)
    requires forall x :: x in Uses(g, b) ==> x in g.heap && (g.heap[x].Ctx? <==> b == UsbWork)
    ensures Uses(g, a) * Uses(g, b) != {} <==> Clash(g, a, b) || Clash(g, b, a)
    ensures Uses(g, a) * Uses(g, b) <= OptSet(g.fs)
  {
    hide Uses, Local, Pointers, Clash, Holds;
    UsbHeld();
    if Ids in Holds(a) {
      StoreAgainst(g, a, b);
    } else if Ids in Holds(b) {
      StoreAgainst(g, b, a);
      assert Uses(g, a) * Uses(g, b) == Uses(g, b) * Uses(g, a);
    } else {
      UsesWithout(g, a);
      UsesWithout(g, b);
      if Clash(g, a, b) {
        ClashHolds(g, a, b);
      } else if Clash(g, b, a) {
        ClashHolds(g, b, a);
      }
    }
  }

  /** The one box two threads can use at once is the file system, at exactly those points. */
  lemma SharedUseIff(g: State, t: nat, u: nat)
    requires Inv(g) && t in g.pcs && u in g.pcs && t != u
    ensures Uses(g, g.pcs[t]) * Uses(g, g.pcs[u]) != {}
       <==> Clash(g, g.pcs[t], g.pcs[u]) || Clash(g, g.pcs[u], g.pcs[t])
    ensures Uses(g, g.pcs[t]) * Uses(g, g.pcs[u]) <= OptSet(g.fs)
  {
    InvParts(g);
    LocalAt(g, t);
    LocalAt(g, u);
    var a, b := g.pcs[t], g.pcs[u];
    NoTwoHold(g, t, u, Ids);
    NoTwoHold(g, t, u, Fs);
    NoTwoHold(g, t, u, Usb);
    UsesKinds(g, a);
    UsesKinds(g, b);
    SharedParts(g, a, b);
  }

  /** A step frees a file system only if no store, current or not, has a handle into it. */
  lemma FsFreedUnused(g: State, t: nat, c: Choice, f: nat)
    requires Inv(g) && Step(g, t, c).Some? && HasFs(g.heap, f) && f !in Step(g, t, c).value.heap
    ensures g.ids.None? && NoHandles(g.heap, f)
  {
    PcIsIn(g, t);
    InvParts(g);
    LocalAt(g, t);
    hide Inv, Memory, Closed, Numbered, FsUsers, CtxUsers, Quiet;
    if g.pcs[t] == ExitDropFs {
      ExitFsInv(g, t);
    }
  }
}
