/** When the threads can get stuck: never without `usbFsInitialize`, and with it only one way. */
module Deadlock {
  import opened Locks
  import opened LockSteps
  import opened LockRuns

  ghost predicate InCall(g: State, t: nat) {
    t in g.pcs && g.pcs[t] != Idle
  }

  ghost predicate Blocked(g: State, t: nat) {
    t in g.pcs && Wants(g.pcs[t]).Some? && !g.Free(Wants(g.pcs[t]).value.0)
  }

  /** Each of two threads has a mutex the other waits for. */
  ghost predicate MutualWait(g: State, t: nat, u: nat) {
    && t in g.pcs && u in g.pcs && t != u
    && Wants(g.pcs[t]).Some? && Wants(g.pcs[t]).value.0 in Holds(g.pcs[u])
    && Wants(g.pcs[u]).Some? && Wants(g.pcs[u]).value.0 in Holds(g.pcs[t])
  }

  /** The points of `usbFsInitialize` that wait with a guard in hand. */
  predicate InitWaits(pc: PC) {
    pc.WantInitFs? || pc.WantInitIds?
  }

  /** A thread in a call can step unless it waits for a mutex that is taken. */
  lemma UnblockedSteps(g: State, t: nat)
    requires Inv(g) && InCall(g, t) && !Blocked(g, t)
    ensures Step(g, t, Go).Some?
  {
    hide Inv, Local;
  }

  /** Whoever waits with a guard in hand is in `usbFsInitialize` or has the id store. */
  lemma HoldAndWait(pc: PC)
    requires Wants(pc).Some? && Holds(pc) != {}
    ensures InitWaits(pc) || Ids in Holds(pc)
    ensures InitWaits(pc) ==> Usb in Holds(pc) && Ids !in Holds(pc)
    ensures Ids in Holds(pc) ==> Wants(pc).value.0 != Ids
    ensures Wants(pc).value.0 !in Holds(pc)
    ensures Ids in Holds(pc) && Fs in Holds(pc) ==> Wants(pc).value.0 == Usb
    ensures InitWaits(pc) && Wants(pc).value.0 == Ids ==> Fs in Holds(pc)
    ensures InitWaits(pc) ==> Wants(pc).value.0 == Ids || Wants(pc).value.0 == Fs
  {
  }

  lemma Holder(g: State, t: nat) returns (u: nat)
    requires Blocked(g, t)
    ensures u in g.pcs && Wants(g.pcs[t]).value.0 in Holds(g.pcs[u])
  {
    u :| u in g.pcs && Wants(g.pcs[t]).value.0 in Holds(g.pcs[u]);
  }

  lemma ExclusiveHolder(g: State, t: nat, u: nat, l: Lock)
    requires Inv(g) && t in g.pcs && u in g.pcs && l in Holds(g.pcs[t]) && l in Holds(g.pcs[u])
    ensures t == u
  {
    hide Holds, Memory, Locals, PendingApart;
  }

  lemma BlockedWaits(g: State, t: nat)
    requires Blocked(g, t)
    ensures Wants(g.pcs[t]).Some?
  {
  }

  lemma HolderInCall(pc: PC)
    requires Holds(pc) != {}
    ensures pc != Idle
  {
  }

  /**
   Without a thread at the two waits of `usbFsInitialize`, as long as any thread is in a
   call some thread in a call can step: `usbFsIsInitialized` and `usbFsExit` take the
   file system and the context in opposite orders, but only under the id store.
   */
  lemma DeadlockFree(g: State, t: nat) returns (v: nat)
    requires Inv(g) && InCall(g, t)
    requires forall u :: u in g.pcs ==> !InitWaits(g.pcs[u])
    ensures InCall(g, v) && Step(g, v, Go).Some?
  {
    hide Inv, Holds, Wants, Step;
    v := t;
    if Blocked(g, t) {
      v := Holder(g, t);
      HolderInCall(g.pcs[v]);
      if Blocked(g, v) {
        var u := v;
        BlockedWaits(g, u);
        HoldAndWait(g.pcs[u]);
        v := Holder(g, u);
        HolderInCall(g.pcs[v]);
        if Blocked(g, v) {
          BlockedWaits(g, v);
          HoldAndWait(g.pcs[v]);
          ExclusiveHolder(g, u, v, Ids);
        }
      }
    }
    UnblockedSteps(g, v);
  }

  lemma LockCases(l: Lock)
    ensures l == Ids || l == Fs || l == Usb
  {
  }

  lemma InitWaitsHold(pc: PC)
    requires InitWaits(pc)
    ensures Wants(pc).Some? && Holds(pc) != {}
  {
  }

  lemma NotBlockedIfSteps(g: State, t: nat, c: Choice)
    requires InCall(g, t) && Step(g, t, c).Some?
    ensures !Blocked(g, t)
  {
    PcIsIn(g, t);
  }

  /**
   If all calls are stuck, a thread in `usbFsInitialize` and one with the id store, each
   having what the other waits for, are the reason.
   */
  lemma StuckIsInitCycle(g: State, t: nat) returns (v: nat, u: nat)
    requires Inv(g) && InCall(g, t)
    requires forall x :: InCall(g, x) ==> Blocked(g, x)
    ensures MutualWait(g, v, u) && InitWaits(g.pcs[v]) && Ids in Holds(g.pcs[u])
  {
    hide Inv, Holds, Wants, Step;
    if forall x :: x in g.pcs ==> !InitWaits(g.pcs[x]) {
      v := DeadlockFree(g, t);
      NotBlockedIfSteps(g, v, Go);
      u := v;
    } else {
      v :| v in g.pcs && InitWaits(g.pcs[v]);
      BlockedWaits(g, v);
      InitWaitsHold(g.pcs[v]);
      HoldAndWait(g.pcs[v]);
      u := Holder(g, v);
      HolderInCall(g.pcs[u]);
      BlockedWaits(g, u);
      HoldAndWait(g.pcs[u]);
      if InitWaits(g.pcs[u]) {
        ExclusiveHolder(g, u, v, Usb);
      }
      LockCases(Wants(g.pcs[u]).value.0);
    }
  }

  lemma StepLeavesWaiting(g: State, t: nat, u: nat, x: nat, c: Choice)
    requires MutualWait(g, t, u) && Step(g, x, c).Some?
    ensures t in Step(g, x, c).value.pcs && Step(g, x, c).value.pcs[t] == g.pcs[t]
  {
    hide Holds;
  }

  /** Neither of the two ever moves again, whatever the other threads do. */
  lemma {:induction false} MutualWaitForever(g: State, t: nat, u: nat, sched: Schedule)
    requires MutualWait(g, t, u) && Run(g, sched).Some?
    ensures var h := Run(g, sched).value;
            MutualWait(h, t, u) && h.pcs[t] == g.pcs[t] && h.pcs[u] == g.pcs[u]
    decreases |sched|
  {
    hide Step, Holds, Wants;
    if sched == [] {
    } else {
      StepLeavesWaiting(g, t, u, sched[0].0, sched[0].1);
      StepLeavesWaiting(g, u, t, sched[0].0, sched[0].1);
      MutualWaitForever(Step(g, sched[0].0, sched[0].1).value, t, u, sched[1..]);
    }
  }

  // ---------- When it meets nobody, every call completes ----------

  /** Not in `usbFsInitialize`. */
  predicate Ordinary(pc: PC) {
    match pc
    case WantProbeIds(who) => who != Initialize
    case WantProbeUsb(who) => who != Initialize
    case WantProbeFs(who) => who != Initialize
    case ProbeRead(who) => who != Initialize
    case InitBuild => false
    case WantInitUsb(_) => false
    case InitSetUsb(_) => false
    case InitMount(_) => false
    case WantInitFs(_) => false
    case InitSetFs(_) => false
    case WantInitIds(_) => false
    case InitSetIds(_) => false
    case _ => true
  }

  /** How many steps a call that goes straight on has left. */
  function Left(pc: PC): nat {
    match pc
    case WantProbeIds(_) => 12 case WantProbeUsb(_) => 11 case WantProbeFs(_) => 10 case ProbeRead(_) => 9
    case WantUsb => 3 case UsbCheck => 2 case UsbWork => 1
    case WantStore => 3 case StoreCheck => 2 case StoreWork => 1
    case WantStoreFs => 3 case StoreFsCheck => 2 case StoreFsWork => 1 case StoreTail(_) => 1
    case WantFs => 3 case FsCheck => 2 case FsWork => 1
    case WantExitIds => 6 case ExitDropStore => 5 case WantExitFs => 4 case ExitDropFs => 3
    case WantExitUsb => 2 case ExitDropUsb => 1
    case InitBuild => 8 case WantInitUsb(_) => 7 case InitSetUsb(_) => 6 case InitMount(_) => 5
    case WantInitFs(_) => 4 case InitSetFs(_) => 3 case WantInitIds(_) => 2 case InitSetIds(_) => 1
    case Idle => 0
  }

  /** From point `pc` to point `next` a call has come on, and has not turned into `usbFsInitialize`. */
  predicate ComesOn(pc: PC, next: PC, c: Choice) {
    (Ordinary(pc) ==> Ordinary(next)) && (c == Go ==> Left(next) < Left(pc))
  }

  lemma TakeComesOn(pc: PC)
    requires Wants(pc).Some?
    ensures ComesOn(pc, Wants(pc).value.1, Go)
  {
  }

  lemma QuietComesOn(g: State, pc: PC, c: Choice)
    requires pc != Idle && Quiet(g, pc, c).Some?
    ensures ComesOn(pc, Quiet(g, pc, c).value, c)
  {
  }

  lemma ChangeComesOn(g: State, t: nat, pc: PC, c: Choice)
    requires Change(g, t, pc, c).Some?
    ensures var h := Change(g, t, pc, c).value;
            t in h.pcs && h.pcs == g.pcs[t := h.pcs[t]] && ComesOn(pc, h.pcs[t], c)
  {
  }

  lemma EntryIsOrdinary(pc: PC)
    requires IsEntry(pc) && pc != WantProbeIds(Initialize)
    ensures Ordinary(pc)
  {
  }

  lemma IdleIsOrdinary()
    ensures Ordinary(Idle) && Holds(Idle) == {} && Wants(Idle).None?
  {
  }

  lemma StepComesOn(g: State, t: nat, c: Choice)
    requires Step(g, t, c).Some?
    ensures var h := Step(g, t, c).value;
            && t in h.pcs && h.pcs == g.pcs[t := h.pcs[t]]
            && (g.Pc(t) != Idle ==> ComesOn(g.Pc(t), h.pcs[t], c))
            && (g.Pc(t) == Idle && c != Call(WantProbeIds(Initialize)) ==> Ordinary(h.pcs[t]))
  {
    hide Ordinary, Left, Wants, Quiet, Change, ComesOn;
    var pc := g.Pc(t);
    IdleIsOrdinary();
    if Wants(pc).Some? {
      TakeComesOn(pc);
    } else if pc == Idle {
      if c != Call(WantProbeIds(Initialize)) {
        EntryIsOrdinary(c.pc);
      }
    } else if Quiet(g, pc, c).Some? {
      QuietComesOn(g, pc, c);
    } else {
      ChangeComesOn(g, t, pc, c);
    }
  }

  ghost predicate AllOrdinary(g: State) {
    forall t :: t in g.pcs ==> Ordinary(g.pcs[t])
  }

  /** A thread in `usbFsInitialize` meets no other call. */
  ghost predicate InitAlone(g: State) {
    forall t, u :: t in g.pcs && u in g.pcs && t != u && !Ordinary(g.pcs[t]) ==> g.pcs[u] == Idle
  }

  lemma OrdinaryNeverInitWaits(g: State)
    requires AllOrdinary(g)
    ensures InitAlone(g)
    ensures forall t :: t in g.pcs ==> !InitWaits(g.pcs[t])
  {
    forall t | t in g.pcs ensures !InitWaits(g.pcs[t]) {
      assert Ordinary(g.pcs[t]);
    }
  }

  /** As long as `usbFsInitialize` meets no other call, some thread in a call can step. */
  lemma AloneDeadlockFree(g: State, t: nat) returns (v: nat)
    requires Inv(g) && InitAlone(g) && InCall(g, t)
    ensures InCall(g, v) && Step(g, v, Go).Some?
  {
    hide Inv, Holds, Wants, Step, Ordinary;
    IdleIsOrdinary();
    if AllOrdinary(g) {
      OrdinaryNeverInitWaits(g);
      v := DeadlockFree(g, t);
    } else {
      v :| v in g.pcs && !Ordinary(g.pcs[v]);
      if Blocked(g, v) {
        var u := Holder(g, v);
        BlockedWaits(g, v);
        HolderInCall(g.pcs[u]);
        if u == v {
          HoldAndWait(g.pcs[v]);
        }
      }
      UnblockedSteps(g, v);
    }
  }

  lemma GoKeepsAlone(g: State, v: nat)
    requires InitAlone(g) && InCall(g, v) && Step(g, v, Go).Some?
    ensures InitAlone(Step(g, v, Go).value)
  {
    hide Step, Ordinary, Left;
    IdleIsOrdinary();
    StepComesOn(g, v, Go);
    var h := Step(g, v, Go).value;
    forall t, u | t in h.pcs && u in h.pcs && t != u && !Ordinary(h.pcs[t])
      ensures h.pcs[u] == Idle
    {
      if t == v {
        assert !Ordinary(g.pcs[v]);
      }
    }
  }

  function Total(g: State, ts: seq<nat>): nat {
    if ts == [] then 0 else Left(g.Pc(ts[0])) + Total(g, ts[1..])
  }

  lemma {:induction false} TotalShrinks(g: State, h: State, t: nat, ts: seq<nat>)
    requires t in g.pcs && t in h.pcs && h.pcs == g.pcs[t := h.pcs[t]] && Left(h.pcs[t]) < Left(g.pcs[t])
    ensures Total(h, ts) <= Total(g, ts) && (t in ts ==> Total(h, ts) < Total(g, ts))
    decreases |ts|
  {
    hide Left;
    if ts == [] {
    } else {
      TotalShrinks(g, h, t, ts[1..]);
    }
  }

  /**
   From every reachable state in which `usbFsInitialize` meets no other call, all calls in
   progress can be brought to their end, so no order of mutexes among them can block for
   good, and a lone `usbFsInitialize` succeeds.
   */
  lemma {:induction false} CallsComplete(g: State, ts: seq<nat>) returns (sched: Schedule)
    requires Inv(g) && InitAlone(g)
    requires forall t :: InCall(g, t) ==> t in ts
    ensures Run(g, sched).Some?
    ensures forall t :: !InCall(Run(g, sched).value, t)
    ensures forall i :: 0 <= i < |sched| ==> sched[i].1 == Go
    decreases Total(g, ts)
  {
    hide Inv, Step, Left, Total, InitAlone;
    if exists t :: InCall(g, t) {
      var t :| InCall(g, t);
      var v := AloneDeadlockFree(g, t);
      PcIsIn(g, v);
      StepComesOn(g, v, Go);
      var h := Step(g, v, Go).value;
      StepKeepsInv(g, v, Go);
      GoKeepsAlone(g, v);
      TotalShrinks(g, h, v, ts);
      var rest := CallsComplete(h, ts);
      sched := [(v, Go)] + rest;
      assert sched[1..] == rest;
    } else {
      sched := [];
    }
  }

  // ---------- Whole runs ----------

  /** Nobody calls `usbFsInitialize`. */
  ghost predicate WithoutInit(sched: Schedule) {
    forall i :: 0 <= i < |sched| ==> sched[i].1 != Call(WantProbeIds(Initialize))
  }

  lemma StepStaysOrdinary(g: State, t: nat, c: Choice)
    requires AllOrdinary(g) && Step(g, t, c).Some? && c != Call(WantProbeIds(Initialize))
    ensures AllOrdinary(Step(g, t, c).value)
  {
    hide Step, Ordinary, Left;
    PcIsIn(g, t);
    IdleIsOrdinary();
    StepComesOn(g, t, c);
  }

  /**
   Along every run of any number of threads through all entry points but `usbFsInitialize`,
   whenever a call is in progress some thread in a call can step.
   */
  lemma {:induction false} NeverStuck(g: State, sched: Schedule, t: nat) returns (v: nat)
    requires Inv(g) && AllOrdinary(g) && WithoutInit(sched)
    requires Run(g, sched).Some? && InCall(Run(g, sched).value, t)
    ensures var h := Run(g, sched).value;
            InCall(h, v) && Step(h, v, Go).Some?
    decreases |sched|
  {
    hide Inv, Step;
    if sched == [] {
      OrdinaryNeverInitWaits(g);
      v := DeadlockFree(g, t);
    } else {
      var (x, c) := sched[0];
      StepKeepsInv(g, x, c);
      StepStaysOrdinary(g, x, c);
      v := NeverStuck(Step(g, x, c).value, sched[1..], t);
    }
  }

  /** All along the run `usbFsInitialize` meets no other call. */
  ghost predicate AloneAlong(g: State, sched: Schedule)
    decreases |sched|
  {
    && InitAlone(g)
    && (sched != [] ==> match Step(g, sched[0].0, sched[0].1)
                        case None => true
                        case Some(h) => AloneAlong(h, sched[1..]))
  }

  lemma {:induction false} AloneAtEnd(g: State, sched: Schedule)
    requires Run(g, sched).Some? && AloneAlong(g, sched)
    ensures InitAlone(Run(g, sched).value)
    decreases |sched|
  {
    hide Step, InitAlone;
    if sched == [] {
    } else {
      AloneAtEnd(Step(g, sched[0].0, sched[0].1).value, sched[1..]);
    }
  }

  lemma {:induction false} Listed(s: set<nat>) returns (ts: seq<nat>)
    ensures forall t :: t in s ==> t in ts
    decreases |s|
  {
    if s == {} {
      ts := [];
    } else {
      var t :| t in s;
      var rest := Listed(s - {t});
      ts := [t] + rest;
    }
  }

  /**
   From the start, along every run in which a thread calls `usbFsInitialize` only while no
   other call is in progress, and no other call starts before it is done: whenever a call
   is in progress some thread in a call can step, and all calls can be completed.
   */
  lemma SerialInitCompletes(sched: Schedule, t: nat) returns (v: nat, rest: Schedule)
    requires Run(START, sched).Some? && AloneAlong(START, sched)
    ensures var h := Run(START, sched).value;
            && (InCall(h, t) ==> InCall(h, v) && Step(h, v, Go).Some?)
            && Run(h, rest).Some? && forall u :: !InCall(Run(h, rest).value, u)
  {
    hide Run, Step, InitAlone, AloneAlong;
    RunKeepsInv(START, sched);
    hide Inv;
    AloneAtEnd(START, sched);
    var h := Run(START, sched).value;
    var ts := Listed(h.pcs.Keys);
    rest := CallsComplete(h, ts);
    v := t;
    if InCall(h, t) {
      v := AloneDeadlockFree(h, t);
    }
  }
}
