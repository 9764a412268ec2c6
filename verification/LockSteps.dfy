/** Each kind of step of the protocol in `Locks` keeps its invariant. */
module LockSteps {
  import opened Wrappers
  import opened Locks

  // ---------- Steps that only move a thread ----------

  lemma PcIsIn(g: State, t: nat)
    ensures g.Pc(t) != Idle ==> t in g.pcs && g.pcs[t] == g.Pc(t)
  {
  }

  /** `pc` fits beside the other threads: no mutex twice, and no box of theirs. */
  ghost predicate Fits(g: State, t: nat, pc: PC) {
    && (forall u :: u in g.pcs && u != t ==> Holds(g.pcs[u]) !! Holds(pc))
    && (forall u :: u in g.pcs && u != t && Pending(pc).Some? ==> Pending(g.pcs[u]) != Pending(pc))
  }

  lemma OwnFits(g: State, t: nat)
    requires Inv(g) && t in g.pcs
    ensures Fits(g, t, g.pcs[t])
  {
  }

  lemma Taken(pc: PC)
    requires Wants(pc).Some?
    ensures var (l, next) := Wants(pc).value;
            Holds(next) == Holds(pc) + {l} && l !in Holds(pc) && Pending(next) == Pending(pc)
  {
  }

  /** A mutex is taken only when no other thread has it. */
  lemma FreeFits(g: State, t: nat)
    requires Inv(g) && Wants(g.Pc(t)).Some? && g.Free(Wants(g.Pc(t)).value.0)
    ensures Fits(g, t, Wants(g.Pc(t)).value.1)
  {
    PcIsIn(g, t);
    OwnFits(g, t);
    Taken(g.Pc(t));
    hide Holds, Wants, Pending, Inv;
  }

  lemma MoveKeepsShape(g: State, t: nat, pc: PC)
    requires Exclusive(g) && PendingApart(g) && Fits(g, t, pc)
    ensures Exclusive(g.At(t, pc)) && PendingApart(g.At(t, pc))
  {
  }

  /** A file system being mounted stays so until it is published. */
  ghost predicate KeepsMounting(from: PC, to: PC) {
    forall b :: (from == WantInitFs(b) ==> to == InitSetFs(b)) && from != InitSetFs(b)
  }

  lemma MoveKeepsCtxUsers(g: State, t: nat, pc: PC)
    requires CtxUsers(g) && KeepsMounting(g.Pc(t), pc)
    ensures CtxUsers(g.At(t, pc))
  {
    var h := g.At(t, pc);
    forall b | Mounting(g, b)
      ensures Mounting(h, b)
    {
      var u :| u in g.pcs && (g.pcs[u] == WantInitFs(b) || g.pcs[u] == InitSetFs(b));
      assert u in h.pcs && (h.pcs[u] == WantInitFs(b) || h.pcs[u] == InitSetFs(b));
    }
  }

  lemma SameMemoryLocal(g: State, h: State, pc: PC)
    requires h == g.(pcs := h.pcs)
    ensures Local(g, pc) == Local(h, pc)
  {
  }

  lemma MoveKeepsLocals(g: State, t: nat, pc: PC)
    requires Locals(g) && Local(g, pc)
    ensures Locals(g.At(t, pc))
  {
    var h := g.At(t, pc);
    forall u | u in h.pcs
      ensures Local(h, h.pcs[u])
    {
      SameMemoryLocal(g, h, h.pcs[u]);
    }
  }

  lemma MoveKeepsInv(g: State, t: nat, pc: PC)
    requires Inv(g) && Fits(g, t, pc) && Local(g, pc) && KeepsMounting(g.Pc(t), pc)
    ensures Inv(g.At(t, pc))
  {
    MoveKeepsShape(g, t, pc);
    MoveKeepsCtxUsers(g, t, pc);
    MoveKeepsLocals(g, t, pc);
    hide Exclusive, PendingApart, CtxUsers, Locals, Local;
  }

  /** Going back to waiting for nothing and holding less always fits. */
  lemma LessFits(g: State, t: nat, pc: PC)
    requires Inv(g) && t in g.pcs && Holds(pc) <= Holds(g.pcs[t])
    requires Pending(pc).None? || Pending(pc) == Pending(g.pcs[t])
    ensures Fits(g, t, pc)
  {
    OwnFits(g, t);
  }

  // ---------- Steps that change the memory ----------

  /** Every thread but `t` can still rely on what it relied on. */
  ghost predicate Others(g: State, h: State, t: nat) {
    forall u :: u in g.pcs && u != t ==> Local(h, g.pcs[u])
  }

  /** What a step of thread `t` to `pc`, ending in `h`, has to show. */
  ghost predicate Sound(g: State, h: State, t: nat, pc: PC) {
    && h.pcs == g.pcs[t := pc]
    && Fits(g, t, pc)
    && Memory(h)
    && Local(h, pc)
    && Others(g, h, t)
  }

  lemma SoundIsInv(g: State, h: State, t: nat, pc: PC)
    requires Inv(g) && Sound(g, h, t, pc)
    ensures Inv(h)
  {
    hide Memory, Local, Holds, Pending;
    MoveKeepsShape(g, t, pc);
    assert Exclusive(h) && PendingApart(h) by {
      assert Exclusive(g.At(t, pc)) && PendingApart(g.At(t, pc));
    }
  }

  lemma PendingLives(g: State, pc: PC)
    requires Local(g, pc) && Pending(pc).Some?
    ensures Pending(pc).value in g.heap
  {
  }

  /** A box just made is nobody else's. */
  lemma FreshFits(g: State, t: nat, pc: PC)
    requires Inv(g) && t in g.pcs && Holds(pc) <= Holds(g.pcs[t]) && Pending(pc) == Some(g.next)
    ensures Fits(g, t, pc)
  {
    OwnFits(g, t);
    forall u | u in g.pcs && u != t && Pending(g.pcs[u]).Some?
      ensures Pending(g.pcs[u]) != Some(g.next)
    {
      PendingLives(g, g.pcs[u]);
    }
    hide Holds, Pending, Local;
  }

  /** A thread that is mounting is still at the same point. */
  ghost predicate KeepsMounters(g: State, h: State) {
    forall t :: t in g.pcs && (g.pcs[t].WantInitFs? || g.pcs[t].InitSetFs?) ==> t in h.pcs && h.pcs[t] == g.pcs[t]
  }

  lemma KeepsMountersAt(g: State, h: State, t: nat, pc: PC)
    requires t in g.pcs && !g.pcs[t].WantInitFs? && !g.pcs[t].InitSetFs? && h.pcs == g.pcs[t := pc]
    ensures KeepsMounters(g, h)
  {
  }

  /** Neither the context nor its users change, and nobody stops mounting. */
  lemma CtxUsersSame(g: State, h: State)
    requires CtxUsers(g) && h.usb == g.usb && h.fs == g.fs
    requires forall b :: HasFs(h.heap, b) ==> HasFs(g.heap, b) && g.heap[b] == h.heap[b]
    requires KeepsMounters(g, h)
    ensures CtxUsers(h)
  {
    if h.usb.Some? {
      forall b | b in h.heap && h.heap[b] == FsBox(h.usb.value)
        ensures h.fs == Some(b) || Mounting(h, b)
      {
        assert HasFs(h.heap, b);
        if g.fs != Some(b) {
          var u :| u in g.pcs && (g.pcs[u] == WantInitFs(b) || g.pcs[u] == InitSetFs(b));
          assert u in h.pcs;
        }
      }
    }
  }

  /** No other thread can be at a point that holds a mutex thread `t` holds. */
  lemma Apart(g: State, t: nat)
    requires Inv(g) && t in g.pcs
    ensures forall u :: u in g.pcs && u != t ==> Local(g, g.pcs[u]) && Holds(g.pcs[u]) !! Holds(g.pcs[t])
    ensures forall u :: u in g.pcs && u != t && Pending(g.pcs[u]).Some? ==> Pending(g.pcs[t]) != Pending(g.pcs[u])
    ensures Local(g, g.pcs[t])
  {
  }

  /** The heap `after` is `heap` with the handles of one store changed. */
  ghost predicate StoreChanged(heap: map<nat, Box>, after: map<nat, Box>, s: nat, handles: set<nat>) {
    HasStore(heap, s) && after == heap[s := Store(handles)]
  }

  lemma HandlesClosed(g: State, h: State, s: nat, handles: set<nat>)
    requires Closed(g) && StoreChanged(g.heap, h.heap, s, handles)
    requires forall f :: f in handles ==> HasFs(g.heap, f)
    ensures Closed(h)
  {
    forall b, f | HasStore(h.heap, b) && f in h.heap[b].handles
      ensures HasFs(h.heap, f)
    {
      assert HasStore(g.heap, b);
      assert HasFs(g.heap, f);
    }
    forall b | HasFs(h.heap, b)
      ensures HasCtx(h.heap, h.heap[b].ctx)
    {
      assert HasFs(g.heap, b);
      assert HasCtx(g.heap, g.heap[b].ctx);
    }
  }

  lemma HandlesUsers(g: State, h: State, s: nat, handles: set<nat>)
    requires FsUsers(g) && StoreChanged(g.heap, h.heap, s, handles) && h.fs == g.fs && h.ids == g.ids == Some(s)
    ensures FsUsers(h)
  {
    if h.fs.Some? {
      forall b | HasStore(h.heap, b) && h.fs.value in h.heap[b].handles
        ensures h.ids == Some(b)
      {
        assert HasStore(g.heap, b);
      }
    }
  }

  lemma HandlesNone(heap: map<nat, Box>, after: map<nat, Box>, s: nat, handles: set<nat>, f: nat)
    requires StoreChanged(heap, after, s, handles) && NoHandles(heap, f) && f !in handles
    ensures NoHandles(after, f)
  {
    forall b | HasStore(after, b) ensures f !in after[b].handles {
      assert HasStore(heap, b);
    }
  }

  /** A thread without the id store guard does not mind handles of another file system. */
  lemma HandlesLocal(g: State, h: State, s: nat, handles: set<nat>, pc: PC)
    requires Local(g, pc) && Ids !in Holds(pc)
    requires StoreChanged(g.heap, h.heap, s, handles)
    requires h.usb == g.usb && h.fs == g.fs && h.ids == g.ids == Some(s)
    requires handles <= g.heap[s].handles
             || (Fs !in Holds(pc) && g.fs.Some? && handles <= g.heap[s].handles + {g.fs.value})
    ensures Local(h, pc)
  {
    match pc
    case WantInitFs(f) => HandlesNone(g.heap, h.heap, s, handles, f);
    case WantInitIds(_) => HandlesNone(g.heap, h.heap, s, handles, g.fs.value);
    case _ =>
  }

  lemma HandlesMemory(g: State, h: State, s: nat, handles: set<nat>)
    requires Memory(g) && g.ids == Some(s) && StoreChanged(g.heap, h.heap, s, handles)
    requires h == g.(heap := h.heap, pcs := h.pcs)
    requires handles <= g.heap[s].handles + if g.fs.Some? then {g.fs.value} else {}
    requires KeepsMounters(g, h)
    ensures Memory(h)
  {
    forall f | f in handles ensures HasFs(g.heap, f) {
      assert HasStore(g.heap, s);
    }
    HandlesClosed(g, h, s, handles);
    HandlesUsers(g, h, s, handles);
    CtxUsersSame(g, h);
    hide Closed, FsUsers, CtxUsers;
  }

  lemma HandlesOthers(g: State, h: State, t: nat, s: nat, handles: set<nat>)
    requires Inv(g) && t in g.pcs && Ids in Holds(g.pcs[t])
    requires g.ids == Some(s) && StoreChanged(g.heap, h.heap, s, handles)
    requires h == g.(heap := h.heap, pcs := h.pcs)
    requires handles <= g.heap[s].handles
             || (Fs in Holds(g.pcs[t]) && g.fs.Some? && handles <= g.heap[s].handles + {g.fs.value})
    ensures Others(g, h, t)
  {
    Apart(g, t);
    hide Inv, Local, Holds, Pending;
    forall u | u in g.pcs && u != t ensures Local(h, g.pcs[u]) {
      HandlesLocal(g, h, s, handles, g.pcs[u]);
    }
  }

  lemma HandlesInv(g: State, t: nat, handles: set<nat>)
    requires Inv(g) && t in g.pcs && (g.pcs[t] == StoreFsWork || g.pcs[t] == StoreWork)
    requires g.ids.Some? && HasStore(g.heap, g.ids.value)
    requires handles <= g.heap[g.ids.value].handles
             || (g.pcs[t] == StoreFsWork && g.fs.Some? && handles <= g.heap[g.ids.value].handles + {g.fs.value})
    ensures Inv(g.WithHandles(handles).At(t, Idle))
  {
    hide Exclusive, PendingApart, Locals, Memory, Fits, Others;
    var s, h := g.ids.value, g.WithHandles(handles).At(t, Idle);
    LessFits(g, t, Idle);
    KeepsMountersAt(g, h, t, Idle);
    HandlesMemory(g, h, s, handles);
    HandlesOthers(g, h, t, s, handles);
    SoundIsInv(g, h, t, Idle);
  }

  /** What a thread has made is not what a pointer points to. */
  lemma PendingNotPublished(g: State, pc: PC)
    requires Local(g, pc) && Pointers(g) && Pending(pc).Some?
    ensures Pending(pc) != g.usb && Pending(pc) != g.fs && Pending(pc) != g.ids
  {
  }

  lemma ReleasedNone(heap: map<nat, Box>, b: nat, f: nat)
    requires NoHandles(heap, f)
    ensures NoHandles(heap - {b}, f)
  {
    forall x | HasStore(heap - {b}, x) ensures f !in (heap - {b})[x].handles {
      assert HasStore(heap, x);
    }
  }

  /** A thread without the guards of `usbFsExit` does not mind what it frees. */
  lemma ReleasedLocal(g: State, h: State, b: nat, pc: PC)
    requires Local(g, pc) && Ids !in Holds(pc) && Pending(pc) != Some(b)
    requires h.heap == g.heap - {b}
    requires h.usb == g.usb || (Usb !in Holds(pc) && h.usb.None?)
    requires h.fs == g.fs || (Fs !in Holds(pc) && h.fs.None?)
    requires h.ids == g.ids || h.ids.None?
    ensures Local(h, pc)
  {
    match pc
    case WantInitFs(f) => ReleasedNone(g.heap, b, f);
    case InitSetFs(f) => ReleasedNone(g.heap, b, f);
    case WantInitIds(_) => ReleasedNone(g.heap, b, g.fs.value);
    case _ =>
  }

  /** Freeing a box that nothing uses leaves nothing dangling. */
  lemma ReleasedClosed(g: State, h: State, b: nat)
    requires Closed(g) && h.heap == g.heap - {b} && Unused(g.heap - {b}, b) && NoHandles(g.heap - {b}, b)
    ensures Closed(h)
  {
    forall x, f | HasStore(h.heap, x) && f in h.heap[x].handles
      ensures HasFs(h.heap, f)
    {
      assert HasStore(g.heap, x);
      assert HasFs(g.heap, f);
    }
    forall x | HasFs(h.heap, x)
      ensures HasCtx(h.heap, h.heap[x].ctx)
    {
      assert HasFs(g.heap, x);
      assert HasCtx(g.heap, g.heap[x].ctx);
    }
  }

  /** A box that is no file system is in no handle. */
  lemma OnlyFsHandles(g: State, h: State, b: nat)
    requires Closed(g) && !HasFs(g.heap, b) && h.heap == g.heap - {b}
    ensures NoHandles(h.heap, b)
  {
    forall x | HasStore(h.heap, x) ensures b !in h.heap[x].handles {
      assert HasStore(g.heap, x);
    }
  }

  lemma ReleasedNumbered(g: State, h: State, b: nat)
    requires Numbered(g) && b in g.heap
    requires h.heap == g.heap - {b} && h.freed == g.freed + [b] && h.next == g.next
    ensures Numbered(h)
  {
  }

  lemma InvParts(g: State)
    requires Inv(g)
    ensures Memory(g) && Pointers(g) && Numbered(g) && Closed(g) && FsUsers(g) && CtxUsers(g)
  {
    hide Exclusive, PendingApart, Locals, Pointers, Numbered, Closed, FsUsers, CtxUsers;
  }

  /** Every other thread survives what thread `t` frees with the guards it has. */
  lemma ReleasedOthers(g: State, h: State, t: nat, b: nat)
    requires Inv(g) && t in g.pcs && Ids in Holds(g.pcs[t])
    requires Some(b) == g.usb || Some(b) == g.fs || Some(b) == g.ids
    requires h.heap == g.heap - {b}
    requires h.usb == g.usb || (Usb in Holds(g.pcs[t]) && h.usb.None?)
    requires h.fs == g.fs || (Fs in Holds(g.pcs[t]) && h.fs.None?)
    requires h.ids == g.ids || h.ids.None?
    ensures Others(g, h, t)
  {
    Apart(g, t);
    InvParts(g);
    hide Local, Holds, Pending, Inv;
    forall u | u in g.pcs && u != t ensures Local(h, g.pcs[u]) {
      if Pending(g.pcs[u]).Some? {
        PendingNotPublished(g, g.pcs[u]);
      }
      ReleasedLocal(g, h, b, g.pcs[u]);
    }
  }

  lemma ExitIdsMemory(g: State, h: State, b: nat)
    requires Memory(g) && g.ids == Some(b) && KeepsMounters(g, h)
    requires h == g.(ids := None).Release(b).(pcs := h.pcs)
    ensures Memory(h)
  {
    ReleasedNumbered(g, h, b);
    OnlyFsHandles(g, h, b);
    ReleasedClosed(g, h, b);
    CtxUsersSame(g, h);
    if h.fs.Some? {
      forall x | HasStore(h.heap, x) ensures h.fs.value !in h.heap[x].handles {
        assert HasStore(g.heap, x);
      }
    }
    hide Numbered, Closed, CtxUsers;
  }

  lemma ExitIdsInv(g: State, t: nat)
    requires Inv(g) && t in g.pcs && g.pcs[t] == ExitDropStore
    ensures Inv(g.ExitIds().At(t, WantExitFs))
  {
    hide Exclusive, PendingApart, Locals, Memory, Fits, Others;
    LessFits(g, t, WantExitFs);
    if g.ids.None? {
      MoveKeepsInv(g, t, WantExitFs);
    } else {
      var b, h := g.ids.value, g.ExitIds().At(t, WantExitFs);
      KeepsMountersAt(g, h, t, WantExitFs);
      ReleasedOthers(g, h, t, b);
      ExitIdsMemory(g, h, b);
      SoundIsInv(g, h, t, WantExitFs);
    }
  }

  lemma ExitFsMemory(g: State, h: State, b: nat)
    requires Memory(g) && g.fs == Some(b) && g.ids.None? && KeepsMounters(g, h)
    requires h == g.(fs := None).Release(b).(pcs := h.pcs)
    ensures Memory(h) && NoHandles(g.heap, b)
  {
    ReleasedNumbered(g, h, b);
    ReleasedNone(g.heap, b, b);
    ReleasedClosed(g, h, b);
    if h.usb.Some? {
      forall x | x in h.heap && h.heap[x] == FsBox(h.usb.value) ensures Mounting(h, x) {
        var u :| u in g.pcs && (g.pcs[u] == WantInitFs(x) || g.pcs[u] == InitSetFs(x));
        assert h.pcs[u] == g.pcs[u];
      }
    }
    hide Numbered, Closed;
  }

  lemma LocalAt(g: State, t: nat)
    requires Inv(g) && t in g.pcs
    ensures Local(g, g.pcs[t])
  {
    hide Local, Memory, Exclusive, PendingApart;
  }

  /** No file system is freed while a handle into it is open. */
  lemma ExitFsInv(g: State, t: nat)
    requires Inv(g) && t in g.pcs && g.pcs[t] == ExitDropFs
    ensures Inv(g.ExitFs().At(t, WantExitUsb))
    ensures g.fs.Some? ==> NoHandles(g.heap, g.fs.value)
  {
    LocalAt(g, t);
    InvParts(g);
    hide Exclusive, PendingApart, Locals, Memory, Fits, Others, Closed, FsUsers, CtxUsers, Numbered;
    LessFits(g, t, WantExitUsb);
    if g.fs.None? {
      MoveKeepsInv(g, t, WantExitUsb);
    } else {
      var b, h := g.fs.value, g.ExitFs().At(t, WantExitUsb);
      KeepsMountersAt(g, h, t, WantExitUsb);
      ReleasedOthers(g, h, t, b);
      ExitFsMemory(g, h, b);
      SoundIsInv(g, h, t, WantExitUsb);
    }
  }

  lemma MounterHolds(pc: PC)
    requires pc.WantInitFs? || pc.InitSetFs?
    ensures Usb in Holds(pc) && Pending(pc).Some?
  {
  }

  /** With the usb guard taken and no file system, nothing uses the context. */
  lemma ContextIsUnused(g: State, t: nat, b: nat)
    requires Inv(g) && t in g.pcs && Usb in Holds(g.pcs[t]) && Pending(g.pcs[t]).None? && g.fs.None? && g.usb == Some(b)
    ensures Unused(g.heap, b)
  {
    hide Local, Inv, Memory, Closed, FsUsers, Numbered, Pointers, Holds, Pending;
    InvParts(g);
    Apart(g, t);
    forall x | x in g.heap && g.heap[x] == FsBox(b) ensures false {
      var u :| u in g.pcs && (g.pcs[u] == WantInitFs(x) || g.pcs[u] == InitSetFs(x));
      MounterHolds(g.pcs[u]);
    }
  }

  lemma ExitUsbMemory(g: State, h: State, b: nat)
    requires Memory(g) && g.usb == Some(b) && g.fs.None? && Unused(g.heap, b)
    requires h == g.(usb := None).Release(b).(pcs := h.pcs)
    ensures Memory(h)
  {
    ReleasedNumbered(g, h, b);
    OnlyFsHandles(g, h, b);
    ReleasedClosed(g, h, b);
    hide Numbered, Closed;
  }

  /** No context is freed while a file system uses it. */
  lemma ExitUsbInv(g: State, t: nat)
    requires Inv(g) && t in g.pcs && g.pcs[t] == ExitDropUsb
    ensures Inv(g.ExitUsb().At(t, Idle))
    ensures g.usb.Some? ==> Unused(g.heap, g.usb.value)
  {
    LocalAt(g, t);
    InvParts(g);
    hide Exclusive, PendingApart, Locals, Memory, Fits, Others, Closed, FsUsers, CtxUsers, Numbered;
    LessFits(g, t, Idle);
    if g.usb.None? {
      MoveKeepsInv(g, t, Idle);
    } else {
      var b, h := g.usb.value, g.ExitUsb().At(t, Idle);
      ContextIsUnused(g, t, b);
      ReleasedOthers(g, h, t, b);
      ExitUsbMemory(g, h, b);
      SoundIsInv(g, h, t, Idle);
    }
  }

  // ---------- Initialize ----------

  lemma AllocNone(g: State, b: Box, f: nat)
    requires NoHandles(g.heap, f) && Numbered(g) && (b.Store? ==> b.handles == {})
    ensures NoHandles(g.heap[g.next := b], f)
  {
    var after := g.heap[g.next := b];
    forall x | HasStore(after, x) ensures f !in after[x].handles {
      if x != g.next {
        assert HasStore(g.heap, x);
      }
    }
  }

  /** A new box changes nothing for a thread. */
  lemma AllocLocal(g: State, h: State, b: Box, pc: PC)
    requires Local(g, pc) && Numbered(g) && h.heap == g.heap[g.next := b]
    requires h.usb == g.usb && h.fs == g.fs && h.ids == g.ids
    requires b.FsBox? ==> Usb !in Holds(pc) && g.usb == Some(b.ctx)
    requires b.Store? ==> b.handles == {}
    ensures Local(h, pc)
  {
    match pc
    case WantInitFs(f) => AllocNone(g, b, f);
    case InitSetFs(f) => AllocNone(g, b, f);
    case WantInitIds(_) => AllocNone(g, b, g.fs.value);
    case InitSetIds(_) => AllocNone(g, b, g.fs.value);
    case _ =>
  }

  lemma AllocShape(g: State, h: State, b: Box)
    requires Closed(g) && Numbered(g) && h.heap == g.heap[g.next := b] && h.next == g.next + 1 && h.freed == g.freed
    requires b.FsBox? ==> HasCtx(g.heap, b.ctx)
    requires b.Store? ==> b.handles == {}
    ensures Closed(h) && Numbered(h)
  {
    forall x, f | HasStore(h.heap, x) && f in h.heap[x].handles
      ensures HasFs(h.heap, f)
    {
      if x != g.next {
        assert HasStore(g.heap, x);
        assert HasFs(g.heap, f);
      }
    }
    forall x | HasFs(h.heap, x)
      ensures HasCtx(h.heap, h.heap[x].ctx)
    {
      if x != g.next {
        assert HasFs(g.heap, x);
        assert HasCtx(g.heap, g.heap[x].ctx);
      }
    }
  }

  lemma AllocOthers(g: State, h: State, t: nat, b: Box)
    requires Inv(g) && t in g.pcs && h.heap == g.heap[g.next := b]
    requires h.usb == g.usb && h.fs == g.fs && h.ids == g.ids
    requires b.FsBox? ==> Usb in Holds(g.pcs[t]) && g.usb == Some(b.ctx)
    requires b.Store? ==> b.handles == {}
    ensures Others(g, h, t)
  {
    Apart(g, t);
    InvParts(g);
    hide Local, Holds, Pending, Inv, Numbered;
    forall u | u in g.pcs && u != t ensures Local(h, g.pcs[u]) {
      AllocLocal(g, h, b, g.pcs[u]);
    }
  }

  lemma AllocUsers(g: State, h: State, b: Box)
    requires FsUsers(g) && Numbered(g) && h.heap == g.heap[g.next := b] && h.fs == g.fs && h.ids == g.ids
    requires b.Store? ==> b.handles == {}
    ensures FsUsers(h)
  {
    if h.fs.Some? {
      forall x | HasStore(h.heap, x) && h.fs.value in h.heap[x].handles
        ensures h.ids == Some(x)
      {
        assert HasStore(g.heap, x);
      }
    }
  }

  lemma InitBuildMemory(g: State, h: State)
    requires Memory(g) && h == g.Alloc(Ctx).(pcs := h.pcs) && KeepsMounters(g, h)
    ensures Memory(h) && HasCtx(h.heap, g.next) && h.usb != Some(g.next) && Unused(h.heap, g.next)
  {
    AllocShape(g, h, Ctx);
    CtxUsersSame(g, h);
    AllocUsers(g, h, Ctx);
    forall x | x in h.heap ensures h.heap[x] != FsBox(g.next) {
      if HasFs(g.heap, x) {
        assert HasCtx(g.heap, g.heap[x].ctx);
      }
    }
  }

  lemma InitBuildInv(g: State, t: nat)
    requires Inv(g) && t in g.pcs && g.pcs[t] == InitBuild
    ensures Inv(g.Alloc(Ctx).At(t, WantInitUsb(g.next)))
  {
    hide Exclusive, PendingApart, Locals, Memory, Fits, Others, KeepsMounters;
    var pc := WantInitUsb(g.next);
    var h := g.Alloc(Ctx).At(t, pc);
    FreshFits(g, t, pc);
    KeepsMountersAt(g, h, t, pc);
    InitBuildMemory(g, h);
    AllocOthers(g, h, t, Ctx);
    SoundIsInv(g, h, t, pc);
  }

  lemma UsbSetMemory(g: State, h: State, ctx: nat)
    requires Memory(g) && HasCtx(g.heap, ctx) && Unused(g.heap, ctx) && h == g.(usb := Some(ctx), pcs := h.pcs)
    ensures Memory(h)
  {
  }

  lemma UsbSetLocal(g: State, h: State, ctx: nat, pc: PC)
    requires Local(g, pc) && Usb !in Holds(pc) && Pending(pc) != Some(ctx)
    requires h == g.(usb := Some(ctx), pcs := h.pcs)
    ensures Local(h, pc)
  {
  }

  lemma UsbSetOthers(g: State, h: State, t: nat, ctx: nat)
    requires Inv(g) && t in g.pcs && g.pcs[t] == InitSetUsb(ctx)
    requires h == g.(usb := Some(ctx), pcs := h.pcs)
    ensures Others(g, h, t)
  {
    Apart(g, t);
    assert Pending(g.pcs[t]) == Some(ctx) && Usb in Holds(g.pcs[t]);
    hide Inv, Local, Holds, Pending;
    forall u | u in g.pcs && u != t ensures Local(h, g.pcs[u]) {
      UsbSetLocal(g, h, ctx, g.pcs[u]);
    }
  }

  lemma InitSetUsbInv(g: State, t: nat, ctx: nat)
    requires Inv(g) && t in g.pcs && g.pcs[t] == InitSetUsb(ctx)
    ensures Inv(g.(usb := Some(ctx)).At(t, InitMount(ctx)))
  {
    var pc := InitMount(ctx);
    var h := g.(usb := Some(ctx)).At(t, pc);
    LocalAt(g, t);
    hide Exclusive, PendingApart, Locals, Fits, Others, Memory, Unused;
    LessFits(g, t, pc);
    UsbSetOthers(g, h, t, ctx);
    UsbSetMemory(g, h, ctx);
    SoundIsInv(g, h, t, pc);
  }

  lemma NextHasNoHandles(g: State)
    requires Closed(g) && Numbered(g)
    ensures NoHandles(g.heap, g.next)
  {
    forall x | HasStore(g.heap, x) ensures g.next !in g.heap[x].handles {
      assert !HasFs(g.heap, g.next);
    }
  }

  lemma InitMountMemory(g: State, h: State, t: nat, ctx: nat)
    requires Memory(g) && g.usb == Some(ctx) && Unused(g.heap, ctx)
    requires h == g.Alloc(FsBox(ctx)).At(t, WantInitFs(g.next))
    ensures Memory(h) && Mounted(h, g.next)
  {
    AllocShape(g, h, FsBox(ctx));
    AllocUsers(g, h, FsBox(ctx));
    assert Mounting(h, g.next) by {
      assert t in h.pcs && h.pcs[t] == WantInitFs(g.next);
    }
    NextHasNoHandles(g);
    AllocNone(g, FsBox(ctx), g.next);
  }

  lemma InitMountInv(g: State, t: nat, ctx: nat)
    requires Inv(g) && t in g.pcs && g.pcs[t] == InitMount(ctx)
    ensures Inv(g.Alloc(FsBox(ctx)).At(t, WantInitFs(g.next)))
  {
    LocalAt(g, t);
    hide Exclusive, PendingApart, Locals, Memory, Fits, Others, Mounted, Unused;
    var pc := WantInitFs(g.next);
    var h := g.Alloc(FsBox(ctx)).At(t, pc);
    FreshFits(g, t, pc);
    InitMountMemory(g, h, t, ctx);
    AllocOthers(g, h, t, FsBox(ctx));
    SoundIsInv(g, h, t, pc);
  }

  /** The file system just published is the only one on its context, and in no handle. */
  lemma InitSetFsMemory(g: State, h: State, fs: nat)
    requires Memory(g) && Mounted(g, fs)
    requires h == g.(fs := Some(fs)).Alloc(Store({})).(pcs := h.pcs)
    ensures Memory(h) && Published(h, g.next)
  {
    AllocShape(g, h, Store({}));
    AllocNone(g, Store({}), fs);
  }

  lemma PublishPoints(g: State, h: State, fs: nat, s: nat)
    ensures Holds(WantInitIds(s)) <= Holds(InitSetFs(fs)) && Pending(WantInitIds(s)) == Some(s)
    ensures Local(g, InitSetFs(fs)) ==> Mounted(g, fs)
    ensures Published(h, s) ==> Local(h, WantInitIds(s))
  {
  }

  lemma FsSetLocal(g: State, h: State, fs: nat, pc: PC)
    requires Local(g, pc) && Numbered(g) && Fs !in Holds(pc) && Usb !in Holds(pc) && Pending(pc) != Some(fs)
    requires h == g.(fs := Some(fs)).Alloc(Store({})).(pcs := h.pcs)
    ensures Local(h, pc)
  {
  }

  lemma FsSetOthers(g: State, h: State, t: nat, fs: nat)
    requires Inv(g) && t in g.pcs && g.pcs[t] == InitSetFs(fs)
    requires h == g.(fs := Some(fs)).Alloc(Store({})).(pcs := h.pcs)
    ensures Others(g, h, t)
  {
    Apart(g, t);
    InvParts(g);
    assert Pending(g.pcs[t]) == Some(fs) && Usb in Holds(g.pcs[t]) && Fs in Holds(g.pcs[t]);
    hide Inv, Local, Holds, Pending, Numbered;
    forall u | u in g.pcs && u != t ensures Local(h, g.pcs[u]) {
      FsSetLocal(g, h, fs, g.pcs[u]);
    }
  }

  lemma InitSetFsInv(g: State, t: nat, fs: nat)
    requires Inv(g) && t in g.pcs && g.pcs[t] == InitSetFs(fs)
    ensures Inv(g.(fs := Some(fs)).Alloc(Store({})).At(t, WantInitIds(g.next)))
  {
    hide Exclusive, PendingApart, Locals, Memory, Fits, Others, Mounted, Published, Local, Holds, Pending;
    LocalAt(g, t);
    var pc := WantInitIds(g.next);
    var h := g.(fs := Some(fs)).Alloc(Store({})).At(t, pc);
    PublishPoints(g, h, fs, g.next);
    FreshFits(g, t, pc);
    InitSetFsMemory(g, h, fs);
    FsSetOthers(g, h, t, fs);
    SoundIsInv(g, h, t, pc);
  }

  lemma IdsSetLocal(g: State, h: State, store: nat, pc: PC)
    requires Local(g, pc) && Holds(pc) !! {Usb, Fs, Ids} && Pending(pc) != Some(store)
    requires h == g.(ids := Some(store), pcs := h.pcs)
    ensures Local(h, pc)
  {
  }

  lemma IdsSetOthers(g: State, h: State, t: nat, store: nat)
    requires Inv(g) && t in g.pcs && g.pcs[t] == InitSetIds(store)
    requires h == g.(ids := Some(store), pcs := h.pcs)
    ensures Others(g, h, t)
  {
    Apart(g, t);
    assert Pending(g.pcs[t]) == Some(store) && Holds(g.pcs[t]) == {Usb, Fs, Ids};
    hide Inv, Local, Holds, Pending;
    forall u | u in g.pcs && u != t ensures Local(h, g.pcs[u]) {
      IdsSetLocal(g, h, store, g.pcs[u]);
    }
  }

  lemma InitSetIdsInv(g: State, t: nat, store: nat)
    requires Inv(g) && t in g.pcs && g.pcs[t] == InitSetIds(store)
    ensures Inv(g.(ids := Some(store)).At(t, Idle))
  {
    LocalAt(g, t);
    hide Exclusive, PendingApart, Locals, Fits, Others, CtxUsers;
    var h := g.(ids := Some(store)).At(t, Idle);
    LessFits(g, t, Idle);
    KeepsMountersAt(g, h, t, Idle);
    CtxUsersSame(g, h);
    IdsSetOthers(g, h, t, store);
    SoundIsInv(g, h, t, Idle);
  }
}
