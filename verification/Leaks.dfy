/**
 What becomes of the boxes: one is lost, neither freed nor within reach, only where
 `usbFsInitialize` publishes another over it.
 */
module Leaks {
  import opened Wrappers
  import opened Locks
  import opened LockSteps
  import opened LockRuns
  import opened LockCalls

  /** A pointer points to the box. */
  predicate PointedTo(g: State, b: nat) {
    g.usb == Some(b) || g.fs == Some(b) || g.ids == Some(b)
  }

  /** A thread but `t` has made the box and not yet published it. */
  ghost predicate PendingElsewhere(g: State, t: nat, b: nat) {
    exists u :: u in g.pcs && u != t && Pending(g.pcs[u]) == Some(b)
  }

  /** The box is within reach of a pointer or of the thread that made it. */
  ghost predicate Reached(g: State, b: nat) {
    PointedTo(g, b) || exists t :: t in g.pcs && Pending(g.pcs[t]) == Some(b)
  }

  /** The boxes that are there and out of reach. */
  ghost function Leaked(g: State): set<nat> {
    set b | b in g.heap && !Reached(g, b)
  }

  /** What a step of `usbFsInitialize` publishes over. */
  function Overwritten(g: State, pc: PC, c: Choice): set<nat> {
    if c != Go then {}
    else
      match pc
      case InitSetUsb(_) => OptSet(g.usb)
      case InitSetFs(_) => OptSet(g.fs)
      case InitSetIds(_) => OptSet(g.ids)
      case _ => {}
  }

  /** Every box ever made is there or has been freed. */
  ghost predicate Accounted(g: State) {
    forall b: nat :: b < g.next ==> b in g.heap || b in g.freed
  }

  // ---------- One step ----------

  lemma ReachedSplit(g: State, t: nat, b: nat)
    ensures Reached(g, b) <==> PointedTo(g, b) || Pending(g.Pc(t)) == Some(b) || PendingElsewhere(g, t, b)
  {
    hide PointedTo;
    if t in g.pcs && Pending(g.pcs[t]) == Some(b) {
      assert Reached(g, b);
    }
    if PendingElsewhere(g, t, b) {
      var u :| u in g.pcs && u != t && Pending(g.pcs[u]) == Some(b);
      assert Reached(g, b);
    }
  }

  /** What thread `t` does is nothing to the boxes of the others. */
  lemma ElsewhereStays(g: State, h: State, t: nat, b: nat)
    requires t in h.pcs && h.pcs == g.pcs[t := h.pcs[t]]
    ensures PendingElsewhere(h, t, b) <==> PendingElsewhere(g, t, b)
  {
    hide Pending;
    if PendingElsewhere(g, t, b) {
      var u :| u in g.pcs && u != t && Pending(g.pcs[u]) == Some(b);
      assert u in h.pcs && Pending(h.pcs[u]) == Some(b);
    }
  }

  /** The step moves `t` to `next` and leaves the boxes that were out of reach so, with `lost` on top. */
  ghost predicate Loses(g: State, h: State, t: nat, next: PC, lost: set<nat>) {
    && h.pcs == g.pcs[t := next]
    && forall b :: (b in h.heap && !PointedTo(h, b) && Pending(next) != Some(b) && !PendingElsewhere(g, t, b))
                   <==> b in lost || (b in g.heap && !PointedTo(g, b) && Pending(g.Pc(t)) != Some(b)
                                      && !PendingElsewhere(g, t, b))
  }

  lemma LosesLeaks(g: State, h: State, t: nat, next: PC, lost: set<nat>)
    requires Loses(g, h, t, next, lost)
    ensures Leaked(h) == Leaked(g) + lost
  {
    hide Pending, PointedTo, PendingElsewhere, Reached;
    forall b
      ensures b in Leaked(h) <==> b in Leaked(g) + lost
    {
      ReachedSplit(g, t, b);
      ReachedSplit(h, t, b);
      ElsewhereStays(g, h, t, b);
    }
  }

  lemma TakeKeepsPending(pc: PC)
    requires Wants(pc).Some?
    ensures Pending(Wants(pc).value.1) == Pending(pc)
  {
  }

  lemma QuietNotPending(g: State, pc: PC, c: Choice)
    requires Quiet(g, pc, c).Some?
    ensures Pending(pc).None? && Pending(Quiet(g, pc, c).value).None?
  {
  }

  lemma MoveLoses(g: State, t: nat, next: PC)
    requires Pending(next) == Pending(g.Pc(t))
    ensures Loses(g, g.At(t, next), t, next, {})
  {
  }

  lemma HandlesLoses(g: State, t: nat, handles: set<nat>)
    requires g.ids.Some? && g.ids.value in g.heap && Pending(g.Pc(t)).None?
    ensures Loses(g, g.WithHandles(handles).At(t, Idle), t, Idle, {})
  {
  }

  /** Freeing what a pointer points to loses nothing. */
  lemma ExitLoses(g: State, t: nat, next: PC)
    requires Pending(g.Pc(t)).None? && Pending(next).None?
    ensures Loses(g, g.ExitIds().At(t, next), t, next, {})
    ensures Loses(g, g.ExitFs().At(t, next), t, next, {})
    ensures Loses(g, g.ExitUsb().At(t, next), t, next, {})
  {
  }

  lemma AllocLoses(g: State, t: nat, box: Box, next: PC)
    requires Numbered(g) && Pending(g.Pc(t)).None? && Pending(next) == Some(g.next)
    ensures Loses(g, g.Alloc(box).At(t, next), t, next, {})
  {
  }

  lemma LocalUnpublished(g: State, pc: PC, b: nat)
    requires Local(g, pc) && Pointers(g) && Pending(pc) == Some(b)
    ensures !PointedTo(g, b) && b in g.heap
  {
  }

  /** A box that is pending is pointed to by nothing. */
  lemma PendingIsUnpublished(g: State, u: nat, b: nat)
    requires Inv(g) && u in g.pcs && Pending(g.pcs[u]) == Some(b)
    ensures !PointedTo(g, b) && b in g.heap
  {
    LocalAt(g, u);
    InvParts(g);
    hide Inv, Local, Pointers, Closed, Numbered, FsUsers, CtxUsers, Pending, PointedTo;
    LocalUnpublished(g, g.pcs[u], b);
  }

  lemma ElsewhereIsUnpublished(g: State, t: nat)
    requires Inv(g)
    ensures forall b :: PendingElsewhere(g, t, b) ==> !PointedTo(g, b) && b in g.heap
  {
    hide Inv, Pending, PointedTo;
    forall b | PendingElsewhere(g, t, b)
      ensures !PointedTo(g, b) && b in g.heap
    {
      var u :| u in g.pcs && u != t && Pending(g.pcs[u]) == Some(b);
      PendingIsUnpublished(g, u, b);
    }
  }

  /** The pointers point to boxes of their own, none of which is pending. */
  ghost predicate PointersApart(g: State, t: nat) {
    && (g.usb.Some? ==> g.usb.value in g.heap && g.usb != g.fs && g.usb != g.ids)
    && (g.fs.Some? ==> g.fs.value in g.heap && g.fs != g.ids)
    && (g.ids.Some? ==> g.ids.value in g.heap)
    && (forall b: nat :: PointedTo(g, b) ==> !PendingElsewhere(g, t, b) && Pending(g.Pc(t)) != Some(b))
  }

  lemma PointersDiffer(g: State)
    requires Pointers(g)
    ensures g.usb.Some? ==> g.usb.value in g.heap && g.usb != g.fs && g.usb != g.ids
    ensures g.fs.Some? ==> g.fs.value in g.heap && g.fs != g.ids
    ensures g.ids.Some? ==> g.ids.value in g.heap
  {
  }

  lemma InvApart(g: State, t: nat)
    requires Inv(g)
    ensures PointersApart(g, t) && Numbered(g)
  {
    InvParts(g);
    PointersDiffer(g);
    ElsewhereIsUnpublished(g, t);
    PcIsIn(g, t);
    hide Inv, PendingElsewhere, Pointers, Closed, FsUsers, CtxUsers, Numbered;
    if Pending(g.Pc(t)).Some? {
      PendingIsUnpublished(g, t, Pending(g.Pc(t)).value);
    }
  }

  /** A pointer that is overwritten was the only way to its box. */
  lemma UsbSetLoses(g: State, t: nat, ctx: nat)
    requires PointersApart(g, t) && g.Pc(t) == InitSetUsb(ctx)
    ensures Loses(g, g.(usb := Some(ctx)).At(t, InitMount(ctx)), t, InitMount(ctx), OptSet(g.usb))
  {
    hide PendingElsewhere;
    assert g.usb.Some? ==> PointedTo(g, g.usb.value);
  }

  lemma FsSetLoses(g: State, t: nat, fs: nat)
    requires PointersApart(g, t) && Numbered(g) && g.Pc(t) == InitSetFs(fs)
    ensures var next := WantInitIds(g.next);
            Loses(g, g.(fs := Some(fs)).Alloc(Store({})).At(t, next), t, next, OptSet(g.fs))
  {
    hide PendingElsewhere;
    assert g.fs.Some? ==> PointedTo(g, g.fs.value);
  }

  lemma IdsSetLoses(g: State, t: nat, store: nat)
    requires PointersApart(g, t) && g.Pc(t) == InitSetIds(store)
    ensures Loses(g, g.(ids := Some(store)).At(t, Idle), t, Idle, OptSet(g.ids))
  {
    hide PendingElsewhere;
    assert g.ids.Some? ==> PointedTo(g, g.ids.value);
  }

  lemma ChangeLeaks(g: State, t: nat, c: Choice)
    requires Inv(g) && t in g.pcs && Change(g, t, g.pcs[t], c).Some?
    ensures Leaked(Change(g, t, g.pcs[t], c).value) == Leaked(g) + Overwritten(g, g.pcs[t], c)
  {
    hide Inv, Leaked, Loses;
    InvApart(g, t);
    hide PointersApart, Numbered;
    var h := Change(g, t, g.pcs[t], c).value;
    match g.pcs[t]
    case StoreWork =>
      HandlesLoses(g, t, g.heap[g.ids.value].handles - {c.fs});
      LosesLeaks(g, h, t, Idle, {});
    case StoreFsWork =>
      HandlesLoses(g, t, g.heap[g.ids.value].handles + {g.fs.value});
      LosesLeaks(g, h, t, Idle, {});
    case ExitDropStore =>
      ExitLoses(g, t, WantExitFs);
      LosesLeaks(g, h, t, WantExitFs, {});
    case ExitDropFs =>
      ExitLoses(g, t, WantExitUsb);
      LosesLeaks(g, h, t, WantExitUsb, {});
    case ExitDropUsb =>
      ExitLoses(g, t, Idle);
      LosesLeaks(g, h, t, Idle, {});
    case InitBuild =>
      AllocLoses(g, t, Ctx, WantInitUsb(g.next));
      LosesLeaks(g, h, t, WantInitUsb(g.next), {});
    case InitSetUsb(ctx) =>
      UsbSetLoses(g, t, ctx);
      LosesLeaks(g, h, t, InitMount(ctx), OptSet(g.usb));
    case InitMount(ctx) =>
      AllocLoses(g, t, FsBox(ctx), WantInitFs(g.next));
      LosesLeaks(g, h, t, WantInitFs(g.next), {});
    case InitSetFs(fs) =>
      FsSetLoses(g, t, fs);
      LosesLeaks(g, h, t, WantInitIds(g.next), OptSet(g.fs));
    case InitSetIds(store) =>
      IdsSetLoses(g, t, store);
      LosesLeaks(g, h, t, Idle, OptSet(g.ids));
  }

  lemma QuietOverwrites(g: State, pc: PC, c: Choice)
    requires Wants(pc).Some? || pc == Idle || Quiet(g, pc, c).Some?
    ensures Overwritten(g, pc, c) == {}
  {
  }

  lemma EntryNotPending(pc: PC)
    requires IsEntry(pc)
    ensures Pending(pc).None? && Pending(Idle).None?
  {
  }

  /** A step puts out of reach exactly what `usbFsInitialize` publishes over. */
  lemma StepLeaks(g: State, t: nat, c: Choice)
    requires Inv(g) && Step(g, t, c).Some?
    ensures Leaked(Step(g, t, c).value) == Leaked(g) + Overwritten(g, g.Pc(t), c)
  {
    hide Inv, Leaked, Loses, Quiet, Change, Overwritten, Wants, Pending;
    var pc, h := g.Pc(t), Step(g, t, c).value;
    PcIsIn(g, t);
    if Wants(pc).Some? {
      TakeKeepsPending(pc);
      MoveLoses(g, t, Wants(pc).value.1);
      LosesLeaks(g, h, t, Wants(pc).value.1, {});
      QuietOverwrites(g, pc, c);
    } else if pc == Idle {
      EntryNotPending(c.pc);
      MoveLoses(g, t, c.pc);
      LosesLeaks(g, h, t, c.pc, {});
      QuietOverwrites(g, pc, c);
    } else if Quiet(g, pc, c).Some? {
      QuietNotPending(g, pc, c);
      MoveLoses(g, t, Quiet(g, pc, c).value);
      LosesLeaks(g, h, t, Quiet(g, pc, c).value, {});
      QuietOverwrites(g, pc, c);
    } else {
      ChangeLeaks(g, t, c);
    }
  }

  lemma StepAccounts(g: State, t: nat, c: Choice)
    requires Accounted(g) && Step(g, t, c).Some?
    ensures Accounted(Step(g, t, c).value)
  {
  }

  // ---------- Runs ----------

  /** All that the run publishes over. */
  ghost function OverwrittenAlong(g: State, sched: Schedule): set<nat>
    decreases |sched|
  {
    if sched == [] then {}
    else
      match Step(g, sched[0].0, sched[0].1)
      case None => {}
      case Some(h) => Overwritten(g, g.Pc(sched[0].0), sched[0].1) + OverwrittenAlong(h, sched[1..])
  }

  lemma {:induction false} RunLeaks(g: State, sched: Schedule)
    requires Inv(g) && Accounted(g) && Run(g, sched).Some?
    ensures var h := Run(g, sched).value;
            Leaked(h) == Leaked(g) + OverwrittenAlong(g, sched) && Accounted(h)
    decreases |sched|
  {
    hide Inv, Step, Leaked, Overwritten, Accounted;
    if sched == [] {
    } else {
      var (t, c) := sched[0];
      StepKeepsInv(g, t, c);
      StepLeaks(g, t, c);
      StepAccounts(g, t, c);
      RunLeaks(Step(g, t, c).value, sched[1..]);
    }
  }

  /**
   In every interleaving from the start: the boxes that are there and out of reach for good
   are exactly those that `usbFsInitialize` has published another over, and every box
   ever made is there or has been freed, but not both.
   */
  lemma LeakedAreOverwritten(sched: Schedule)
    requires Run(START, sched).Some?
    ensures var g := Run(START, sched).value;
            && Leaked(g) == OverwrittenAlong(START, sched)
            && forall b: nat :: b < g.next ==> (b in g.heap <==> b !in g.freed)
  {
    RunKeepsInv(START, sched);
    RunLeaks(START, sched);
    InvParts(Run(START, sched).value);
  }

  /** A lone `usbFsExit` leaves of the boxes exactly those that have leaked. */
  lemma ExitLeavesLeaked(g: State, t: nat)
    requires Inv(g) && Alone(g, t, Idle)
    ensures Run(g, [(t, Call(WantExitIds))] + Gos(t, 6)).Some?
    ensures Run(g, [(t, Call(WantExitIds))] + Gos(t, 6)).value.heap.Keys == Leaked(g)
  {
    hide Run, Gos;
    LoneExit(g, t);
    var h := Exited(g, t, Idle);
    forall b
      ensures b in h.heap <==> b in Leaked(g)
    {
      assert Reached(g, b) <==> PointedTo(g, b);
    }
  }
}
