/**
 Exactly when the calls in progress can all be completed, `usbFsInitialize` included: the
 deadlock is decided as soon as two threads are at certain points.
 */
module Doom {
  import opened Wrappers
  import opened Locks
  import opened LockSteps
  import opened LockRuns
  import opened Deadlock

  // ---------- Two threads that will wait for each other ----------

  /** Past its mount `usbFsInitialize` has the context, cannot fail any more, and has the id store to come. */
  predicate Committed(pc: PC) {
    pc.WantInitFs? || pc.InitSetFs? || pc.WantInitIds?
  }

  /** With the id store, and still in need of the context. */
  predicate NeedsUsb(pc: PC) {
    pc.WantProbeUsb? || pc == ExitDropStore || pc == WantExitFs || pc == ExitDropFs || pc == WantExitUsb
  }

  /**
   A thread at `b` needs, with the id store in hand, what a committed one at `a` has and will
   not give back: the context, or the file system, which it has once it does not want it.
   */
  predicate Crossed(a: PC, b: PC) {
    Committed(a) && (NeedsUsb(b) || (b == WantStoreFs && !a.WantInitFs?))
  }

  ghost predicate Doomed(g: State) {
    exists t, u :: t in g.pcs && u in g.pcs && Crossed(g.pcs[t], g.pcs[u])
  }

  lemma CommittedHolds(pc: PC)
    requires Committed(pc)
    ensures Usb in Holds(pc) && Ids !in Holds(pc)
    ensures !pc.WantInitFs? ==> Fs in Holds(pc)
    ensures pc != Idle
  {
  }

  lemma NeedsUsbHolds(pc: PC)
    requires NeedsUsb(pc) || pc == WantStoreFs
    ensures Ids in Holds(pc) && Usb !in Holds(pc) && pc != Idle
  {
  }

  /** What a step makes of a committed thread that meets one with the id store. */
  lemma CommittedStep(g: State, t: nat, u: nat, c: Choice)
    requires t in g.pcs && u in g.pcs && Crossed(g.pcs[t], g.pcs[u]) && Step(g, t, c).Some?
    ensures var h := Step(g, t, c).value;
            t != u && t in h.pcs && h.pcs == g.pcs[t := h.pcs[t]] && Crossed(h.pcs[t], g.pcs[u])
  {
    hide Holds;
    CommittedHolds(g.pcs[t]);
    NeedsUsbHolds(g.pcs[u]);
    assert Ids in Holds(g.pcs[u]);
  }

  lemma CrossedStep(g: State, t: nat, u: nat, c: Choice)
    requires t in g.pcs && u in g.pcs && Crossed(g.pcs[t], g.pcs[u]) && Step(g, u, c).Some?
    ensures var h := Step(g, u, c).value;
            t != u && u in h.pcs && h.pcs == g.pcs[u := h.pcs[u]] && Crossed(g.pcs[t], h.pcs[u])
  {
    hide Holds;
    CommittedHolds(g.pcs[t]);
    NeedsUsbHolds(g.pcs[u]);
  }

  lemma StepStaysDoomed(g: State, x: nat, c: Choice)
    requires Doomed(g) && Step(g, x, c).Some?
    ensures Doomed(Step(g, x, c).value)
  {
    hide Step, Crossed;
    var t, u :| t in g.pcs && u in g.pcs && Crossed(g.pcs[t], g.pcs[u]);
    StepComesOn(g, x, c);
    var h := Step(g, x, c).value;
    if x == t {
      CommittedStep(g, t, u, c);
    } else if x == u {
      CrossedStep(g, t, u, c);
    }
    assert Crossed(h.pcs[t], h.pcs[u]);
  }

  /** Once two threads have crossed, they stay so along every run, and neither call ends. */
  lemma {:induction false} DoomedForever(g: State, sched: Schedule)
    requires Doomed(g) && Run(g, sched).Some?
    ensures Doomed(Run(g, sched).value)
    decreases |sched|
  {
    hide Step, Doomed;
    if sched == [] {
    } else {
      StepStaysDoomed(g, sched[0].0, sched[0].1);
      DoomedForever(Step(g, sched[0].0, sched[0].1).value, sched[1..]);
    }
  }

  // ---------- Otherwise there is a way out ----------

  /** A mount that may still fail does; every other call goes on. */
  function WayOut(pc: PC): Choice {
    if pc.InitMount? then Fail else Go
  }

  /** `usbFsInitialize` between its mount and its end. */
  predicate Publishing(pc: PC) {
    Committed(pc) || pc.InitSetIds?
  }

  lemma TakeStaysBehind(pc: PC)
    requires Wants(pc).Some? && !Publishing(pc)
    ensures !Publishing(Wants(pc).value.1) && !pc.InitMount?
  {
  }

  lemma QuietStaysBehind(g: State, pc: PC, c: Choice)
    requires Quiet(g, pc, c).Some?
    ensures !Publishing(Quiet(g, pc, c).value)
  {
  }

  lemma ChangeStaysBehind(g: State, t: nat, pc: PC)
    requires Change(g, t, pc, Go).Some? && !Publishing(pc) && !pc.InitMount?
    ensures t in Change(g, t, pc, Go).value.pcs && !Publishing(Change(g, t, pc, Go).value.pcs[t])
  {
  }

  lemma MountFails(g: State, v: nat)
    requires InCall(g, v) && g.pcs[v].InitMount?
    ensures Step(g, v, Fail) == Some(g.At(v, Idle)) && Left(Idle) < Left(g.pcs[v])
  {
  }

  /** With nobody past its mount, a step of the way out leads nobody past it. */
  lemma WayOutStep(g: State, v: nat)
    requires InCall(g, v) && Step(g, v, WayOut(g.pcs[v])).Some? && !Publishing(g.pcs[v])
    ensures var h := Step(g, v, WayOut(g.pcs[v])).value;
            v in h.pcs && h.pcs == g.pcs[v := h.pcs[v]] && !Publishing(h.pcs[v]) && Left(h.pcs[v]) < Left(g.pcs[v])
  {
    hide Left, Wants, Quiet, Change;
    var pc := g.pcs[v];
    if pc.InitMount? {
      MountFails(g, v);
    } else {
      StepComesOn(g, v, Go);
      if Wants(pc).Some? {
        TakeStaysBehind(pc);
      } else if Quiet(g, pc, Go).Some? {
        QuietStaysBehind(g, pc, Go);
      } else {
        ChangeStaysBehind(g, v, pc);
      }
    }
  }

  /** A point that can be on neither side of a crossing. */
  predicate Benign(pc: PC) {
    !Committed(pc) && !NeedsUsb(pc) && pc != WantStoreFs
  }

  lemma CrossedParts(a: PC, b: PC)
    requires Crossed(a, b)
    ensures Committed(a) && !Benign(a) && !Benign(b) && (NeedsUsb(b) || b == WantStoreFs)
  {
  }

  lemma BenignStaysFree(g: State, h: State, v: nat)
    requires !Doomed(g) && v in h.pcs && h.pcs == g.pcs[v := h.pcs[v]] && Benign(h.pcs[v])
    ensures !Doomed(h)
  {
    hide Crossed;
    forall t, u | t in h.pcs && u in h.pcs
      ensures !Crossed(h.pcs[t], h.pcs[u])
    {
      if Crossed(h.pcs[t], h.pcs[u]) {
        CrossedParts(h.pcs[t], h.pcs[u]);
      }
    }
  }

  /** A thread with one mutex or two, which needs no other. */
  predicate Through(pc: PC) {
    || pc == StoreCheck || pc == StoreWork || pc.StoreTail? || pc == StoreFsCheck || pc == StoreFsWork
    || pc == FsCheck || pc == FsWork
  }

  lemma ThroughStep(g: State, v: nat)
    requires Inv(g) && !Doomed(g) && v in g.pcs && Through(g.pcs[v])
    ensures InCall(g, v) && Step(g, v, Go).Some? && !Doomed(Step(g, v, Go).value)
  {
    hide Inv, Doomed, Holds;
    UnblockedSteps(g, v);
    BenignStaysFree(g, Step(g, v, Go).value, v);
  }

  lemma StoreFsTakes(g: State, w: nat)
    requires Inv(g) && !Doomed(g) && w in g.pcs && g.pcs[w] == WantStoreFs && !Blocked(g, w)
    ensures InCall(g, w) && Step(g, w, Go).Some? && !Doomed(Step(g, w, Go).value)
  {
    hide Inv, Doomed, Holds;
    UnblockedSteps(g, w);
    BenignStaysFree(g, Step(g, w, Go).value, w);
  }

  /** Who holds the id store, but neither of the others, and needs none of them. */
  lemma IdsHolderThrough(pc: PC)
    requires Ids in Holds(pc) && Usb !in Holds(pc) && Fs !in Holds(pc) && !NeedsUsb(pc) && pc != WantStoreFs
    ensures Through(pc)
  {
  }

  lemma FsHolderThrough(pc: PC)
    requires Fs in Holds(pc) && Usb !in Holds(pc) && !NeedsUsb(pc)
    ensures Through(pc) && (Ids !in Holds(pc) ==> pc == FsCheck || pc == FsWork)
  {
  }

  lemma PublishingHolds(pc: PC)
    requires Publishing(pc)
    ensures Usb in Holds(pc) && (!pc.WantInitFs? ==> Fs in Holds(pc)) && pc != Idle
    ensures pc.WantInitFs? ==> Wants(pc) == Some((Fs, InitSetFs(pc.fs))) && Holds(pc) == {Usb}
    ensures pc.WantInitIds? ==> Wants(pc) == Some((Ids, InitSetIds(pc.store))) && Holds(pc) == {Usb, Fs}
    ensures !pc.WantInitFs? && !pc.WantInitIds? ==> Wants(pc).None?
  {
  }

  /** What the next step of the publishing thread itself is. */
  lemma PublishingNext(g: State, t: nat)
    requires t in g.pcs && Publishing(g.pcs[t]) && Step(g, t, Go).Some?
    ensures var h := Step(g, t, Go).value;
            && t in h.pcs && h.pcs == g.pcs[t := h.pcs[t]]
            && (g.pcs[t].WantInitFs? ==> h.pcs[t].InitSetFs?)
            && (g.pcs[t].InitSetFs? ==> h.pcs[t].WantInitIds?)
            && (g.pcs[t].WantInitIds? || g.pcs[t].InitSetIds? ==> Benign(h.pcs[t]))
  {
    hide Holds;
  }

  /** Only one thread has the context. */
  lemma OnlyPublishing(g: State, t: nat, u: nat)
    requires Inv(g) && t in g.pcs && u in g.pcs && Publishing(g.pcs[t]) && Usb in Holds(g.pcs[u])
    ensures t == u
  {
    hide Inv, Holds;
    PublishingHolds(g.pcs[t]);
    ExclusiveHolder(g, t, u, Usb);
  }

  /** The publishing thread goes on, and crosses nobody. */
  lemma PublishingSteps(g: State, t: nat)
    requires Inv(g) && !Doomed(g) && t in g.pcs && Publishing(g.pcs[t]) && !Blocked(g, t)
    requires g.pcs[t].WantInitFs? ==> forall w :: w in g.pcs ==> g.pcs[w] != WantStoreFs
    ensures InCall(g, t) && Step(g, t, Go).Some? && !Doomed(Step(g, t, Go).value)
  {
    hide Inv, Holds, Wants, Step, Left;
    PublishingHolds(g.pcs[t]);
    UnblockedSteps(g, t);
    PublishingNext(g, t);
    var h := Step(g, t, Go).value;
    forall a, b | a in h.pcs && b in h.pcs
      ensures !Crossed(h.pcs[a], h.pcs[b])
    {
      assert !Crossed(g.pcs[t], g.pcs[b]);
      if Crossed(h.pcs[a], h.pcs[b]) {
        CrossedParts(h.pcs[a], h.pcs[b]);
        CommittedHolds(h.pcs[a]);
        if a != t {
          OnlyPublishing(g, t, a);
        }
      }
    }
  }

  lemma NotCrossed(g: State, t: nat, u: nat)
    requires !Doomed(g) && t in g.pcs && u in g.pcs && Committed(g.pcs[t])
    ensures !NeedsUsb(g.pcs[u]) && (g.pcs[u] == WantStoreFs ==> g.pcs[t].WantInitFs?)
  {
    assert !Crossed(g.pcs[t], g.pcs[u]);
  }

  /** Whom the publishing thread waits for has none of the mutexes that thread has. */
  lemma HolderApart(g: State, t: nat, v: nat)
    requires Inv(g) && t in g.pcs && v in g.pcs && Publishing(g.pcs[t])
    requires Wants(g.pcs[t]).Some? && Wants(g.pcs[t]).value.0 in Holds(g.pcs[v])
    ensures Usb !in Holds(g.pcs[v]) && (g.pcs[t].WantInitIds? ==> Fs !in Holds(g.pcs[v]))
  {
    hide Inv, Holds, Wants;
    PublishingHolds(g.pcs[t]);
    if Usb in Holds(g.pcs[v]) {
      ExclusiveHolder(g, t, v, Usb);
    } else if g.pcs[t].WantInitIds? && Fs in Holds(g.pcs[v]) {
      ExclusiveHolder(g, t, v, Fs);
    }
  }

  lemma StoreFsWaits()
    ensures Wants(WantStoreFs) == Some((Fs, StoreFsCheck)) && Holds(WantStoreFs) == {Ids}
  {
  }

  /** Where a call on the store waits for the file system too, it goes first. */
  lemma StoreGoesFirst(g: State, t: nat, w: nat) returns (v: nat)
    requires Inv(g) && !Doomed(g) && t in g.pcs && g.pcs[t].WantInitFs?
    requires w in g.pcs && g.pcs[w] == WantStoreFs
    ensures InCall(g, v) && Step(g, v, Go).Some? && !Doomed(Step(g, v, Go).value)
  {
    hide Inv, Holds, Wants, Step, Doomed;
    StoreFsWaits();
    PublishingHolds(g.pcs[t]);
    if Blocked(g, w) {
      v := Holder(g, w);
      BlockedWaits(g, w);
      if Ids in Holds(g.pcs[v]) {
        ExclusiveHolder(g, w, v, Ids);
      } else {
        HolderApart(g, t, v);
        if NeedsUsb(g.pcs[v]) {
          NeedsUsbHolds(g.pcs[v]);
        }
        FsHolderThrough(g.pcs[v]);
        ThroughStep(g, v);
      }
    } else {
      v := w;
      StoreFsTakes(g, w);
    }
  }

  /** The thread past its mount can be brought on, by itself or by whom it waits for. */
  lemma PublishingCompletes(g: State, t: nat) returns (v: nat)
    requires Inv(g) && !Doomed(g) && t in g.pcs && Publishing(g.pcs[t])
    ensures InCall(g, v) && Step(g, v, Go).Some? && !Doomed(Step(g, v, Go).value)
  {
    hide Inv, Holds, Wants, Step, Doomed;
    v := t;
    PublishingHolds(g.pcs[t]);
    if g.pcs[t].WantInitFs? && exists w :: w in g.pcs && g.pcs[w] == WantStoreFs {
      var w :| w in g.pcs && g.pcs[w] == WantStoreFs;
      v := StoreGoesFirst(g, t, w);
    } else if Blocked(g, t) {
      v := Holder(g, t);
      BlockedWaits(g, t);
      HolderApart(g, t, v);
      NotCrossed(g, t, v);
      if g.pcs[t].WantInitFs? {
        FsHolderThrough(g.pcs[v]);
      } else {
        IdsHolderThrough(g.pcs[v]);
      }
      ThroughStep(g, v);
    } else {
      PublishingSteps(g, t);
    }
  }

  lemma NoneCommitted(g: State)
    requires forall t :: t in g.pcs ==> !Publishing(g.pcs[t])
    ensures !Doomed(g) && forall t :: t in g.pcs ==> !InitWaits(g.pcs[t])
  {
    forall t | t in g.pcs ensures !InitWaits(g.pcs[t]) && !Committed(g.pcs[t]) {
      assert !Publishing(g.pcs[t]);
    }
  }

  lemma MountCanFail(g: State, v: nat)
    requires v in g.pcs && Step(g, v, Go).Some?
    ensures Step(g, v, WayOut(g.pcs[v])).Some?
  {
  }

  /** As long as no two threads have crossed, some thread in a call can step, and none cross by that. */
  lemma WayOutExists(g: State, x: nat) returns (v: nat, c: Choice)
    requires Inv(g) && !Doomed(g) && InCall(g, x)
    ensures InCall(g, v) && Step(g, v, c).Some? && !c.Call?
    ensures var h := Step(g, v, c).value;
            && !Doomed(h)
            && v in h.pcs && h.pcs == g.pcs[v := h.pcs[v]] && Left(h.pcs[v]) < Left(g.pcs[v])
  {
    hide Inv, Holds, Wants, Step, Doomed, Publishing, Left;
    c := Go;
    if exists t :: t in g.pcs && Publishing(g.pcs[t]) {
      var t :| t in g.pcs && Publishing(g.pcs[t]);
      v := PublishingCompletes(g, t);
      StepComesOn(g, v, Go);
      PcIsIn(g, v);
    } else {
      NoneCommitted(g);
      v := DeadlockFree(g, x);
      c := WayOut(g.pcs[v]);
      MountCanFail(g, v);
      WayOutStep(g, v);
      NoneCommitted(Step(g, v, c).value);
    }
  }

  /** All calls in progress can be brought to their end, without new ones. */
  ghost predicate Completable(g: State) {
    exists sched: Schedule ::
      && Run(g, sched).Some? && (forall i :: 0 <= i < |sched| ==> !sched[i].1.Call?)
      && forall t :: !InCall(Run(g, sched).value, t)
  }

  lemma {:induction false} FreeCompletes(g: State, ts: seq<nat>) returns (sched: Schedule)
    requires Inv(g) && !Doomed(g)
    requires forall t :: InCall(g, t) ==> t in ts
    ensures Run(g, sched).Some? && forall t :: !InCall(Run(g, sched).value, t)
    ensures forall i :: 0 <= i < |sched| ==> !sched[i].1.Call?
    decreases Total(g, ts)
  {
    hide Inv, Step, Left, Total, Doomed;
    if exists x :: InCall(g, x) {
      var x :| InCall(g, x);
      var v, c := WayOutExists(g, x);
      var h := Step(g, v, c).value;
      StepKeepsInv(g, v, c);
      TotalShrinks(g, h, v, ts);
      var rest := FreeCompletes(h, ts);
      sched := [(v, c)] + rest;
      assert sched[1..] == rest;
    } else {
      sched := [];
    }
  }

  lemma DoomedInCall(g: State) returns (t: nat)
    requires Doomed(g)
    ensures InCall(g, t)
  {
    var u;
    t, u :| t in g.pcs && u in g.pcs && Crossed(g.pcs[t], g.pcs[u]);
  }

  /** The calls in progress can be completed exactly if no two threads have crossed. */
  lemma CompletableIff(g: State)
    requires Inv(g)
    ensures Completable(g) <==> !Doomed(g)
  {
    hide Inv, Run, Doomed;
    if Doomed(g) {
      forall sched: Schedule | Run(g, sched).Some?
        ensures exists t :: InCall(Run(g, sched).value, t)
      {
        DoomedForever(g, sched);
        var t := DoomedInCall(Run(g, sched).value);
      }
    } else {
      var ts := Listed(g.pcs.Keys);
      var sched := FreeCompletes(g, ts);
    }
  }

  /**
   In every interleaving from the start, `usbFsInitialize` and its failures included, the
   calls in progress can be completed exactly if no two threads have crossed; and then some
   thread in a call can step.
   */
  lemma RunCompletableIff(sched: Schedule)
    requires Run(START, sched).Some?
    ensures var g := Run(START, sched).value;
            && (Completable(g) <==> !Doomed(g))
            && (!Doomed(g) && (exists t :: InCall(g, t)) ==>
                  exists v, c: Choice :: InCall(g, v) && !c.Call? && Step(g, v, c).Some?)
  {
    RunKeepsInv(START, sched);
    hide Inv, Run, Doomed, Completable, Step;
    var g := Run(START, sched).value;
    CompletableIff(g);
    if !Doomed(g) && exists t :: InCall(g, t) {
      var t :| InCall(g, t);
      var v, c := WayOutExists(g, t);
    }
  }

  // ---------- What a caller has to see to ----------

  /** Out of a call, or in one that takes no second mutex under that of the id store. */
  predicate Simple(pc: PC) {
    || pc == Idle || pc == WantStore || pc == StoreCheck || pc == StoreWork
    || pc == WantFs || pc == FsCheck || pc == FsWork || pc == WantUsb || pc == UsbCheck || pc == UsbWork
  }

  /**
   `usbFsInitialize` meets no probe, no other `usbFsInitialize`, no `usbFsExit`, and no
   store call with the file system.
   */
  ghost predicate InitApart(g: State) {
    forall t, u :: t in g.pcs && u in g.pcs && t != u && !Ordinary(g.pcs[t]) ==> Simple(g.pcs[u])
  }

  lemma ApartIsFree(g: State)
    requires InitApart(g)
    ensures !Doomed(g)
  {
    forall t, u | t in g.pcs && u in g.pcs
      ensures !Crossed(g.pcs[t], g.pcs[u])
    {
      if t != u && !Ordinary(g.pcs[t]) {
        assert Simple(g.pcs[u]);
      }
    }
  }

  ghost predicate ApartAlong(g: State, sched: Schedule)
    decreases |sched|
  {
    && InitApart(g)
    && (sched != [] ==> match Step(g, sched[0].0, sched[0].1)
                        case None => true
                        case Some(h) => ApartAlong(h, sched[1..]))
  }

  lemma {:induction false} ApartAtEnd(g: State, sched: Schedule)
    requires Run(g, sched).Some? && ApartAlong(g, sched)
    ensures InitApart(Run(g, sched).value)
    decreases |sched|
  {
    hide Step, InitApart;
    if sched == [] {
    } else {
      ApartAtEnd(Step(g, sched[0].0, sched[0].1).value, sched[1..]);
    }
  }

  /**
   From the start, all calls can be completed at any time of a run in which `usbFsInitialize`
   overlaps only with calls that take no second mutex under that of the id store: the
   other calls, `usbFsStatFilesystem` and calls on the store among them, may overlap it.
   */
  lemma ApartCompletes(sched: Schedule)
    requires Run(START, sched).Some? && ApartAlong(START, sched)
    ensures Completable(Run(START, sched).value)
  {
    hide Run, Completable, Doomed, InitApart, ApartAlong;
    ApartAtEnd(START, sched);
    ApartIsFree(Run(START, sched).value);
    RunCompletableIff(sched);
  }
}
