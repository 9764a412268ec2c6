/**
 What the entry points of src/capi_helpers/usbfs.rs do: each to its end while no other
 call is in progress, and in every interleaving what becomes of the boxes they make.
 */
module LockCalls {
  import opened Wrappers
  import opened Locks
  import opened LockSteps
  import opened LockRuns

  // ---------- One thread at a time ----------

  /** Thread `t` is at `pc`, and no other thread is in a call. */
  ghost predicate Alone(g: State, t: nat, pc: PC) {
    g.Pc(t) == pc && forall u :: u in g.pcs && u != t ==> g.pcs[u] == Idle
  }

  lemma AloneMoves(g: State, h: State, t: nat, pc: PC, next: PC)
    requires Alone(g, t, pc) && h.pcs == g.pcs[t := next]
    ensures Alone(h, t, next)
  {
  }

  lemma AloneTakes(g: State, t: nat, pc: PC)
    requires Alone(g, t, pc) && Wants(pc).Some? && Wants(pc).value.0 !in Holds(pc)
    ensures Step(g, t, Go) == Some(g.At(t, Wants(pc).value.1))
    ensures Alone(g.At(t, Wants(pc).value.1), t, Wants(pc).value.1)
  {
  }

  lemma AloneLooks(g: State, t: nat, pc: PC, c: Choice)
    requires Alone(g, t, pc) && Wants(pc).None? && pc != Idle && Quiet(g, pc, c).Some?
    ensures Step(g, t, c) == Some(g.At(t, Quiet(g, pc, c).value))
    ensures Alone(g.At(t, Quiet(g, pc, c).value), t, Quiet(g, pc, c).value)
  {
  }

  lemma AloneChanges(g: State, t: nat, pc: PC)
    requires Alone(g, t, pc) && Wants(pc).None? && pc != Idle && Quiet(g, pc, Go).None?
    ensures Step(g, t, Go) == Change(g, t, pc, Go)
  {
  }

  lemma AloneCalls(g: State, t: nat, pc: PC)
    requires Alone(g, t, Idle) && IsEntry(pc)
    ensures Step(g, t, Call(pc)) == Some(g.At(t, pc)) && Alone(g.At(t, pc), t, pc)
  {
  }

  /** Thread `t` goes straight on `n` times. */
  function Gos(t: nat, n: nat): Schedule {
    if n == 0 then [] else [(t, Go)] + Gos(t, n - 1)
  }

  lemma GoOn(g: State, t: nat, h: State, n: nat)
    requires Step(g, t, Go) == Some(h)
    ensures Run(g, Gos(t, n + 1)) == Run(h, Gos(t, n))
  {
    hide Step;
    assert Gos(t, n + 1)[1..] == Gos(t, n);
  }

  lemma GoNone(g: State, t: nat)
    ensures Run(g, Gos(t, 0)) == Some(g)
  {
  }

  lemma CallOn(g: State, t: nat, c: Choice, h: State, sched: Schedule)
    requires Step(g, t, c) == Some(h)
    ensures Run(g, [(t, c)] + sched) == Run(h, sched)
  {
    hide Step;
    assert ([(t, c)] + sched)[1..] == sched;
  }

  lemma {:induction false} RunAppend(g: State, a: Schedule, b: Schedule)
    requires Run(g, a).Some?
    ensures Run(g, a + b) == Run(Run(g, a).value, b)
    decreases |a|
  {
    hide Step;
    if a == [] {
      assert a + b == b;
    } else {
      assert (a + b)[1..] == a[1..] + b;
      RunAppend(Step(g, a[0].0, a[0].1).value, a[1..], b);
    }
  }

  lemma AtAgain(g: State, t: nat, a: PC, b: PC)
    ensures g.At(t, a).At(t, b) == g.At(t, b)
  {
  }

  // ---------- The first check ----------

  /** All three pointers are set. */
  predicate Initialized(g: State) {
    g.usb.Some? && g.fs.Some? && g.ids.Some?
  }

  /** Everything is as it was, but for where the threads are. */
  predicate SameMemory(g: State, h: State) {
    h.usb == g.usb && h.fs == g.fs && h.ids == g.ids && h.heap == g.heap && h.next == g.next && h.freed == g.freed
  }

  /** Where the check is answered, the call goes on to `next`, and nothing changes. */
  ghost predicate GoesTo(g: State, t: nat, next: PC) {
    forall c: Choice :: if c == Go then Step(g, t, c).Some? && SameMemory(g, Step(g, t, c).value)
                                        && Step(g, t, c).value.pcs == g.pcs[t := next]
                        else Step(g, t, c).None?
  }

  /**
   In every interleaving, whatever the other threads are doing: where the three pointers are
   read, `usbFsInitialize` ends if they are all set and begins to build otherwise,
   `usbFsIsReady` goes on to the context if they are all set and ends otherwise.
   */
  lemma ChecksAre(g: State, t: nat, who: Caller)
    requires g.Pc(t) == ProbeRead(who)
    ensures who == IsInitialized ==> GoesTo(g, t, Idle)
    ensures who == Initialize ==> GoesTo(g, t, if Initialized(g) then Idle else InitBuild)
    ensures who == IsReady ==> GoesTo(g, t, if Initialized(g) then WantUsb else Idle)
  {
  }

  /** The points of `usbFsInitialize` up to its first check, and its end. */
  predicate Checking(pc: PC) {
    || pc == WantProbeIds(Initialize) || pc == WantProbeUsb(Initialize)
    || pc == WantProbeFs(Initialize) || pc == ProbeRead(Initialize) || pc == Idle
  }

  /** The schedule moves thread `t` only, and starts no call. */
  predicate OnlyMoves(sched: Schedule, t: nat) {
    forall i :: 0 <= i < |sched| ==> sched[i].0 == t && !sched[i].1.Call?
  }

  lemma CheckingStep(g: State, t: nat, c: Choice)
    requires Initialized(g) && Checking(g.Pc(t)) && !c.Call? && Step(g, t, c).Some?
    ensures var h := Step(g, t, c).value;
            SameMemory(g, h) && Checking(h.Pc(t))
  {
  }

  /**
   With the library initialized, a `usbFsInitialize` that runs while no other thread moves
   changes nothing, makes no box and frees none, at any point of it.
   */
  lemma {:induction false} InitializeAgain(g: State, t: nat, sched: Schedule)
    requires Initialized(g) && Checking(g.Pc(t)) && OnlyMoves(sched, t) && Run(g, sched).Some?
    ensures var h := Run(g, sched).value;
            SameMemory(g, h) && Checking(h.Pc(t))
    decreases |sched|
  {
    hide Step;
    if sched == [] {
    } else {
      assert sched[0].0 == t && !sched[0].1.Call?;
      CheckingStep(g, t, sched[0].1);
      InitializeAgain(Step(g, t, sched[0].1).value, t, sched[1..]);
    }
  }

  lemma LoneTakesIds(g: State, t: nat, who: Caller)
    requires Alone(g, t, WantProbeIds(who))
    ensures var h := g.At(t, WantProbeUsb(who));
            Step(g, t, Go) == Some(h) && Alone(h, t, WantProbeUsb(who))
  {
    AloneTakes(g, t, WantProbeIds(who));
  }

  lemma LoneTakesUsb(g: State, t: nat, who: Caller)
    requires Alone(g, t, WantProbeUsb(who))
    ensures var h := g.At(t, WantProbeFs(who));
            Step(g, t, Go) == Some(h) && Alone(h, t, WantProbeFs(who))
  {
    AloneTakes(g, t, WantProbeUsb(who));
  }

  lemma LoneTakesFs(g: State, t: nat, who: Caller)
    requires Alone(g, t, WantProbeFs(who))
    ensures var h := g.At(t, ProbeRead(who));
            Step(g, t, Go) == Some(h) && Alone(h, t, ProbeRead(who))
  {
    AloneTakes(g, t, WantProbeFs(who));
  }

  /** A lone check gets to the point where the pointers are read. */
  lemma LoneCheck(g: State, t: nat, who: Caller, n: nat)
    requires Alone(g, t, Idle)
    ensures Alone(g.At(t, ProbeRead(who)), t, ProbeRead(who))
    ensures Run(g, [(t, Call(WantProbeIds(who)))] + Gos(t, n + 3)) == Run(g.At(t, ProbeRead(who)), Gos(t, n))
  {
    hide Step, Run, Alone, Gos;
    var g1, g2, g3 := g.At(t, WantProbeIds(who)), g.At(t, WantProbeUsb(who)), g.At(t, WantProbeFs(who));
    AloneCalls(g, t, WantProbeIds(who));
    LoneTakesIds(g1, t, who);
    AtAgain(g, t, WantProbeIds(who), WantProbeUsb(who));
    LoneTakesUsb(g2, t, who);
    AtAgain(g, t, WantProbeUsb(who), WantProbeFs(who));
    LoneTakesFs(g3, t, who);
    AtAgain(g, t, WantProbeFs(who), ProbeRead(who));
    CallOn(g, t, Call(WantProbeIds(who)), g1, Gos(t, n + 3));
    GoOn(g1, t, g2, n + 2);
    GoOn(g2, t, g3, n + 1);
    GoOn(g3, t, g.At(t, ProbeRead(who)), n);
  }

  // ---------- usbFsInitialize ----------

  /** The library as `usbFsInitialize` leaves it: a new context, a file system on it, and an empty store. */
  function Fresh(g: State, t: nat, pc: PC): State {
    State(Some(g.next), Some(g.next + 1), Some(g.next + 2),
          g.heap[g.next := Ctx][g.next + 1 := FsBox(g.next)][g.next + 2 := Store({})],
          g.next + 3, g.freed, g.pcs[t := pc])
  }

  /** With the context published, before the mount. */
  function WithContext(g: State, t: nat, pc: PC): State {
    g.(usb := Some(g.next), heap := g.heap[g.next := Ctx], next := g.next + 1, pcs := g.pcs[t := pc])
  }

  /** With all of them there but the store not yet published. */
  function AlmostFresh(g: State, t: nat, pc: PC): State {
    Fresh(g, t, pc).(ids := g.ids)
  }

  /** With a file system that is not yet published. */
  function WithMounted(g: State, t: nat, pc: PC): State {
    WithContext(g, t, pc).(heap := g.heap[g.next := Ctx][g.next + 1 := FsBox(g.next)], next := g.next + 2)
  }

  /** A lone thread takes the mutex it waits for, or makes its change, and is alone at the point behind it. */
  lemma AloneTakeTo(g: State, h: State, t: nat, pc: PC)
    requires Alone(g, t, pc) && Wants(pc).Some? && Wants(pc).value.0 !in Holds(pc) && h == g.At(t, Wants(pc).value.1)
    ensures Step(g, t, Go) == Some(h) && Alone(h, t, Wants(pc).value.1)
  {
    AloneTakes(g, t, pc);
  }

  lemma AloneChangeTo(g: State, h: State, t: nat, pc: PC, next: PC)
    requires Alone(g, t, pc) && Wants(pc).None? && pc != Idle && Quiet(g, pc, Go).None?
    requires Change(g, t, pc, Go) == Some(h) && h.pcs == g.pcs[t := next]
    ensures Step(g, t, Go) == Some(h) && Alone(h, t, next)
  {
    AloneChanges(g, t, pc);
    AloneMoves(g, h, t, pc, next);
  }

  lemma HoldsNone(b: nat)
    ensures Usb !in Holds(WantInitUsb(b)) && Fs !in Holds(WantInitFs(b)) && Ids !in Holds(WantInitIds(b))
  {
  }

  lemma LoneContext(g: State, t: nat, n: nat)
    requires Alone(g, t, InitBuild)
    ensures var h := WithContext(g, t, InitMount(g.next));
            Alone(h, t, InitMount(g.next)) && Run(g, Gos(t, n + 3)) == Run(h, Gos(t, n))
  {
    hide Step, Run, Alone, Gos, Holds;
    var c := g.next;
    var g1 := g.Alloc(Ctx).At(t, WantInitUsb(c));
    var g2, h := g1.At(t, InitSetUsb(c)), WithContext(g, t, InitMount(c));
    AloneChangeTo(g, g1, t, InitBuild, WantInitUsb(c));
    HoldsNone(c);
    AloneTakeTo(g1, g2, t, WantInitUsb(c));
    assert g2.(usb := Some(c)).At(t, InitMount(c)) == h;
    AloneChangeTo(g2, h, t, InitSetUsb(c), InitMount(c));
    GoOn(g, t, g1, n + 2);
    GoOn(g1, t, g2, n + 1);
    GoOn(g2, t, h, n);
  }

  lemma MountedIs(g: State, t: nat)
    ensures var c, f := g.next, g.next + 1;
            var g1, g2 := WithContext(g, t, InitMount(c)), WithMounted(g, t, WantInitFs(f));
            && g1.next == f && g1.Alloc(FsBox(c)).At(t, WantInitFs(f)) == g2
            && g2.pcs == g1.pcs[t := WantInitFs(f)] && g2.At(t, InitSetFs(f)) == WithMounted(g, t, InitSetFs(f))
  {
  }

  lemma LoneMount(g: State, t: nat, n: nat)
    requires Alone(WithContext(g, t, InitMount(g.next)), t, InitMount(g.next))
    ensures var h := WithMounted(g, t, InitSetFs(g.next + 1));
            Alone(h, t, InitSetFs(g.next + 1))
            && Run(WithContext(g, t, InitMount(g.next)), Gos(t, n + 2)) == Run(h, Gos(t, n))
  {
    hide Step, Run, Alone, Gos, Holds, WithContext, WithMounted;
    var c, f := g.next, g.next + 1;
    var g1, g2, h := WithContext(g, t, InitMount(c)), WithMounted(g, t, WantInitFs(f)), WithMounted(g, t, InitSetFs(f));
    MountedIs(g, t);
    AloneChangeTo(g1, g2, t, InitMount(c), WantInitFs(f));
    HoldsNone(f);
    AloneTakeTo(g2, h, t, WantInitFs(f));
    GoOn(g1, t, g2, n + 1);
    GoOn(g2, t, h, n);
  }

  lemma LonePublish(g: State, t: nat, n: nat)
    requires Alone(WithMounted(g, t, InitSetFs(g.next + 1)), t, InitSetFs(g.next + 1))
    ensures var h := AlmostFresh(g, t, WantInitIds(g.next + 2));
            Alone(h, t, WantInitIds(g.next + 2))
            && Run(WithMounted(g, t, InitSetFs(g.next + 1)), Gos(t, n + 1)) == Run(h, Gos(t, n))
  {
    hide Step, Run, Alone, Gos, Holds;
    var f := g.next + 1;
    var g1, h := WithMounted(g, t, InitSetFs(f)), AlmostFresh(g, t, WantInitIds(f + 1));
    assert g1.(fs := Some(f)).Alloc(Store({})).At(t, WantInitIds(f + 1)) == h;
    AloneChangeTo(g1, h, t, InitSetFs(f), WantInitIds(f + 1));
    GoOn(g1, t, h, n);
  }

  lemma StoredIs(g: State, t: nat)
    ensures var s := g.next + 2;
            var g1, g2, h := AlmostFresh(g, t, WantInitIds(s)), AlmostFresh(g, t, InitSetIds(s)), Fresh(g, t, Idle);
            && g1.At(t, InitSetIds(s)) == g2 && g2.(ids := Some(s)).At(t, Idle) == h && h.pcs == g2.pcs[t := Idle]
  {
  }

  lemma LoneStore(g: State, t: nat)
    requires Alone(AlmostFresh(g, t, WantInitIds(g.next + 2)), t, WantInitIds(g.next + 2))
    ensures Run(AlmostFresh(g, t, WantInitIds(g.next + 2)), Gos(t, 2)) == Some(Fresh(g, t, Idle))
  {
    hide Step, Run, Alone, Gos, Holds, AlmostFresh, Fresh;
    var s := g.next + 2;
    var g1, g2, h := AlmostFresh(g, t, WantInitIds(s)), AlmostFresh(g, t, InitSetIds(s)), Fresh(g, t, Idle);
    StoredIs(g, t);
    HoldsNone(s);
    AloneTakeTo(g1, g2, t, WantInitIds(s));
    AloneChangeTo(g2, h, t, InitSetIds(s), Idle);
    GoOn(g1, t, g2, 1);
    GoOn(g2, t, h, 0);
    GoNone(h, t);
  }

  /** A check that finds a pointer not set goes on to build. */
  lemma LoneBegins(g: State, t: nat, n: nat)
    requires Alone(g, t, Idle) && !Initialized(g)
    ensures Alone(g.At(t, InitBuild), t, InitBuild)
    ensures Run(g, [(t, Call(WantProbeIds(Initialize)))] + Gos(t, n + 4)) == Run(g.At(t, InitBuild), Gos(t, n))
  {
    hide Step, Run, Alone, Gos;
    LoneCheck(g, t, Initialize, n + 1);
    AloneLooks(g.At(t, ProbeRead(Initialize)), t, ProbeRead(Initialize), Go);
    AtAgain(g, t, ProbeRead(Initialize), InitBuild);
    GoOn(g.At(t, ProbeRead(Initialize)), t, g.At(t, InitBuild), n);
  }

  lemma FreshAt(g: State, t: nat, pc: PC)
    ensures Fresh(g.At(t, pc), t, Idle) == Fresh(g, t, Idle)
  {
  }

  /**
   A lone `usbFsInitialize` changes nothing if the library is initialized. Otherwise it
   leaves a new context, a file system on it and an empty store, whatever was there before.
   */
  lemma LoneInitialize(g: State, t: nat)
    requires Alone(g, t, Idle)
    ensures Initialized(g) ==> Run(g, [(t, Call(WantProbeIds(Initialize)))] + Gos(t, 4)) == Some(g.At(t, Idle))
    ensures !Initialized(g) ==> Run(g, [(t, Call(WantProbeIds(Initialize)))] + Gos(t, 12)) == Some(Fresh(g, t, Idle))
  {
    hide Step, Run, Alone, Gos, Fresh, WithContext, WithMounted, AlmostFresh;
    if Initialized(g) {
      LoneCheck(g, t, Initialize, 1);
      AloneLooks(g.At(t, ProbeRead(Initialize)), t, ProbeRead(Initialize), Go);
      AtAgain(g, t, ProbeRead(Initialize), Idle);
      GoOn(g.At(t, ProbeRead(Initialize)), t, g.At(t, Idle), 0);
      GoNone(g.At(t, Idle), t);
    } else {
      LoneBegins(g, t, 8);
      var h := g.At(t, InitBuild);
      LoneContext(h, t, 5);
      LoneMount(h, t, 3);
      LonePublish(h, t, 2);
      LoneStore(h, t);
      FreshAt(g, t, InitBuild);
    }
  }

  lemma RunOne(g: State, t: nat, c: Choice)
    ensures Run(g, [(t, c)]) == Step(g, t, c)
  {
    hide Step;
    assert [(t, c)][1..] == [];
  }

  /**
   If it fails to find or open a drive nothing has changed; if it fails to mount one, the new
   context is published, and the library is not initialized.
   */
  lemma LoneInitializeFails(g: State, t: nat)
    requires Alone(g, t, Idle) && !Initialized(g)
    ensures Run(g, [(t, Call(WantProbeIds(Initialize)))] + Gos(t, 4) + [(t, Fail)]) == Some(g.At(t, Idle))
    ensures Run(g, [(t, Call(WantProbeIds(Initialize)))] + Gos(t, 7) + [(t, Fail)]) == Some(WithContext(g, t, Idle))
    ensures Pointers(g) ==> !Initialized(WithContext(g, t, Idle))
  {
    hide Step, Run, Alone, Gos;
    var call := [(t, Call(WantProbeIds(Initialize)))];
    var h := g.At(t, InitBuild);
    LoneBegins(g, t, 0);
    GoNone(h, t);
    AloneLooks(h, t, InitBuild, Fail);
    RunAppend(g, call + Gos(t, 4), [(t, Fail)]);
    RunOne(h, t, Fail);
    AtAgain(g, t, InitBuild, Idle);
    LoneBegins(g, t, 3);
    LoneContext(h, t, 0);
    var k := WithContext(h, t, InitMount(h.next));
    GoNone(k, t);
    AloneLooks(k, t, InitMount(h.next), Fail);
    RunAppend(g, call + Gos(t, 7), [(t, Fail)]);
    RunOne(k, t, Fail);
    assert k.At(t, Idle) == WithContext(g, t, Idle);
  }

  // ---------- usbFsIsReady ----------

  lemma LoneReadyOn(g: State, t: nat, g1: State, g3: State, g4: State, h: State)
    requires Alone(g, t, Idle) && g1 == g.At(t, ProbeRead(IsReady))
    requires Step(g1, t, Go) == Some(g.At(t, WantUsb)) && Step(g.At(t, WantUsb), t, Go) == Some(g3)
    requires Step(g3, t, Go) == Some(g4) && Step(g4, t, Go) == Some(h)
    ensures Run(g, [(t, Call(WantProbeIds(IsReady)))] + Gos(t, 6)) == Some(g4)
    ensures Run(g, [(t, Call(WantProbeIds(IsReady)))] + Gos(t, 7)) == Some(h)
  {
    hide Step, Run, Alone, Gos;
    LoneCheck(g, t, IsReady, 3);
    GoOn(g1, t, g.At(t, WantUsb), 2);
    GoOn(g.At(t, WantUsb), t, g3, 1);
    GoOn(g3, t, g4, 0);
    GoNone(g4, t);
    LoneCheck(g, t, IsReady, 4);
    GoOn(g1, t, g.At(t, WantUsb), 3);
    GoOn(g.At(t, WantUsb), t, g3, 2);
    GoOn(g3, t, g4, 1);
    GoOn(g4, t, h, 0);
    GoNone(h, t);
  }

  /** A lone `usbFsIsReady` works on the context exactly if the library is initialized; it changes nothing. */
  lemma LoneIsReady(g: State, t: nat)
    requires Alone(g, t, Idle)
    ensures Initialized(g) ==> Run(g, [(t, Call(WantProbeIds(IsReady)))] + Gos(t, 6)) == Some(g.At(t, UsbWork))
    ensures Initialized(g) ==> Run(g, [(t, Call(WantProbeIds(IsReady)))] + Gos(t, 7)) == Some(g.At(t, Idle))
    ensures !Initialized(g) ==> Run(g, [(t, Call(WantProbeIds(IsReady)))] + Gos(t, 4)) == Some(g.At(t, Idle))
  {
    hide Step, Run, Alone, Gos;
    var g1, next := g.At(t, ProbeRead(IsReady)), if Initialized(g) then WantUsb else Idle;
    LoneCheck(g, t, IsReady, 1);
    AloneLooks(g1, t, ProbeRead(IsReady), Go);
    AtAgain(g, t, ProbeRead(IsReady), next);
    GoOn(g1, t, g.At(t, next), 0);
    GoNone(g.At(t, next), t);
    if Initialized(g) {
      var g3, g4, h := g.At(t, UsbCheck), g.At(t, UsbWork), g.At(t, Idle);
      AloneTakes(g.At(t, WantUsb), t, WantUsb);
      AtAgain(g, t, WantUsb, UsbCheck);
      AloneLooks(g3, t, UsbCheck, Go);
      AtAgain(g, t, UsbCheck, UsbWork);
      AloneLooks(g4, t, UsbWork, Go);
      AtAgain(g, t, UsbWork, Idle);
      LoneReadyOn(g, t, g1, g3, g4, h);
    }
  }

  // ---------- usbFsExit ----------

  function OptSeq(b: Option<nat>): seq<nat> {
    if b.Some? then [b.value] else []
  }

  /** The three pointers are null, and what they pointed to is freed: the store first, the context last. */
  function Exited(g: State, t: nat, pc: PC): State {
    State(None, None, None, g.heap - OptSet(g.ids) - OptSet(g.fs) - OptSet(g.usb), g.next,
          g.freed + OptSeq(g.ids) + OptSeq(g.fs) + OptSeq(g.usb), g.pcs[t := pc])
  }

  function NoStore(g: State): State {
    g.(ids := None, heap := g.heap - OptSet(g.ids), freed := g.freed + OptSeq(g.ids))
  }

  function NoFs(g: State): State {
    g.(fs := None, heap := g.heap - OptSet(g.fs), freed := g.freed + OptSeq(g.fs))
  }

  function NoUsb(g: State): State {
    g.(usb := None, heap := g.heap - OptSet(g.usb), freed := g.freed + OptSeq(g.usb))
  }

  /** In every interleaving, the three steps of `usbFsExit` behind its mutexes. */
  lemma ExitStepsAre(g: State, t: nat)
    ensures g.Pc(t) == ExitDropStore ==> Step(g, t, Go) == Some(NoStore(g).At(t, WantExitFs))
    ensures g.Pc(t) == ExitDropFs ==> Step(g, t, Go) == Some(NoFs(g).At(t, WantExitUsb))
    ensures g.Pc(t) == ExitDropUsb ==> Step(g, t, Go) == Some(NoUsb(g).At(t, Idle))
  {
    var none: set<nat> := {};
    assert g.heap - none == g.heap && g.freed + [] == g.freed;
    assert g.ExitIds() == NoStore(g) && g.ExitFs() == NoFs(g) && g.ExitUsb() == NoUsb(g);
  }

  /** The mutex and the drop of one of the three pointers. */
  lemma LoneDrop(g: State, h: State, t: nat, want: PC, drop: PC, next: PC, n: nat)
    requires Alone(g, t, want) && Wants(want).Some? && Wants(want).value.1 == drop
    requires Wants(want).value.0 !in Holds(want)
    requires Step(g.At(t, drop), t, Go) == Some(h) && h.pcs == g.pcs[t := next]
    ensures Alone(h, t, next) && Run(g, Gos(t, n + 2)) == Run(h, Gos(t, n))
  {
    hide Step, Run, Gos, Holds, Wants;
    AloneTakes(g, t, want);
    AloneMoves(g, h, t, want, next);
    GoOn(g, t, g.At(t, drop), n + 1);
    GoOn(g.At(t, drop), t, h, n);
  }

  lemma ExitWants()
    ensures Wants(WantExitIds) == Some((Ids, ExitDropStore)) && Ids !in Holds(WantExitIds)
    ensures Wants(WantExitFs) == Some((Fs, ExitDropFs)) && Fs !in Holds(WantExitFs)
    ensures Wants(WantExitUsb) == Some((Usb, ExitDropUsb)) && Usb !in Holds(WantExitUsb)
  {
  }

  lemma LoneDropsStore(g: State, t: nat, n: nat)
    requires Alone(g, t, WantExitIds)
    ensures var h := NoStore(g).At(t, WantExitFs);
            Alone(h, t, WantExitFs) && Run(g, Gos(t, n + 2)) == Run(h, Gos(t, n))
  {
    hide Step, Run, Alone, Gos, Holds, Wants;
    ExitWants();
    var g1, h := g.At(t, ExitDropStore), NoStore(g).At(t, WantExitFs);
    ExitStepsAre(g1, t);
    assert NoStore(g1).At(t, WantExitFs) == h;
    LoneDrop(g, h, t, WantExitIds, ExitDropStore, WantExitFs, n);
  }

  lemma LoneDropsFs(g: State, t: nat, n: nat)
    requires Alone(g, t, WantExitFs)
    ensures var h := NoFs(g).At(t, WantExitUsb);
            Alone(h, t, WantExitUsb) && Run(g, Gos(t, n + 2)) == Run(h, Gos(t, n))
  {
    hide Step, Run, Alone, Gos, Holds, Wants;
    ExitWants();
    var g1, h := g.At(t, ExitDropFs), NoFs(g).At(t, WantExitUsb);
    ExitStepsAre(g1, t);
    assert NoFs(g1).At(t, WantExitUsb) == h;
    LoneDrop(g, h, t, WantExitFs, ExitDropFs, WantExitUsb, n);
  }

  lemma LoneDropsUsb(g: State, t: nat, n: nat)
    requires Alone(g, t, WantExitUsb)
    ensures var h := NoUsb(g).At(t, Idle);
            Alone(h, t, Idle) && Run(g, Gos(t, n + 2)) == Run(h, Gos(t, n))
  {
    hide Step, Run, Alone, Gos, Holds, Wants;
    ExitWants();
    var g1, h := g.At(t, ExitDropUsb), NoUsb(g).At(t, Idle);
    ExitStepsAre(g1, t);
    assert NoUsb(g1).At(t, Idle) == h;
    LoneDrop(g, h, t, WantExitUsb, ExitDropUsb, Idle, n);
  }

  lemma ExitedIs(g: State, t: nat)
    ensures NoUsb(NoFs(NoStore(g.At(t, WantExitIds)).At(t, WantExitFs)).At(t, WantExitUsb)).At(t, Idle)
         == Exited(g, t, Idle)
  {
    hide OptSet, OptSeq;
  }

  /**
   A lone `usbFsExit` zeroes the three pointers and frees exactly what they pointed to, the
   store before the file system before the context.
   */
  lemma LoneExit(g: State, t: nat)
    requires Alone(g, t, Idle)
    ensures Run(g, [(t, Call(WantExitIds))] + Gos(t, 6)) == Some(Exited(g, t, Idle))
  {
    hide Step, Run, Alone, Gos, Holds, Wants, Exited;
    ExitWants();
    var g0 := g.At(t, WantExitIds);
    AloneCalls(g, t, WantExitIds);
    CallOn(g, t, Call(WantExitIds), g0, Gos(t, 6));
    var g1, g2 := NoStore(g0).At(t, WantExitFs), NoFs(NoStore(g0).At(t, WantExitFs)).At(t, WantExitUsb);
    var h := NoUsb(g2).At(t, Idle);
    LoneDropsStore(g0, t, 4);
    LoneDropsFs(g1, t, 2);
    LoneDropsUsb(g2, t, 0);
    GoNone(h, t);
    ExitedIs(g, t);
  }

  // ---------- Calls on the store, the file system and the context ----------

  /** In every interleaving, a call ends at a pointer that is null, and goes on to what it points to otherwise. */
  lemma NullChecksAre(g: State, t: nat)
    ensures g.Pc(t) == StoreCheck ==> GoesTo(g, t, if g.ids.Some? then StoreWork else Idle)
    ensures g.Pc(t) == StoreFsCheck ==> GoesTo(g, t, if g.fs.Some? then StoreFsWork else Idle)
    ensures g.Pc(t) == FsCheck ==> GoesTo(g, t, if g.fs.Some? then FsWork else Idle)
    ensures g.Pc(t) == UsbCheck ==> GoesTo(g, t, if g.usb.Some? then UsbWork else Idle)
  {
  }

  /**
   A call that works on the store may take the file system on top, and with that may go on
   in it under the mutex of the store alone, as a lookup does that walks a directory.
   */
  lemma StoreGoesOn(g: State, t: nat)
    requires Inv(g)
    ensures g.Pc(t) == StoreWork ==>
              Step(g, t, Go) == Some(g.At(t, Idle)) && Step(g, t, TakeFs) == Some(g.At(t, WantStoreFs))
    ensures g.Pc(t) == StoreFsWork ==>
              && g.fs.Some? && Step(g, t, Go) == Some(g.At(t, Idle))
              && Step(g, t, DropFsGuard) == Some(g.At(t, StoreTail(g.fs.value)))
  {
    PcIsIn(g, t);
    if g.Pc(t) != Idle {
      LocalAt(g, t);
    }
    hide Inv, Holds;
  }

  /** From `g` to `h` the handles of the current store have become `handles`, and the call has ended. */
  ghost predicate HandlesBecome(g: State, h: State, t: nat, handles: set<nat>) {
    && g.ids.Some? && h.ids == g.ids && h.usb == g.usb && h.fs == g.fs && h.next == g.next && h.freed == g.freed
    && h.heap.Keys == g.heap.Keys && g.ids.value in h.heap && h.heap[g.ids.value] == Store(handles)
    && (forall b :: b in g.heap && b != g.ids.value ==> h.heap[b] == g.heap[b])
    && h.pcs == g.pcs[t := Idle]
  }

  /**
   In every interleaving: a call that opens something adds a handle into the current file
   system to the store, one that closes takes one away, and both leave the others.
   */
  lemma HandlesAre(g: State, t: nat, f: nat)
    requires Inv(g)
    ensures g.Pc(t) == StoreFsWork ==>
              && g.ids.Some? && HasStore(g.heap, g.ids.value) && g.fs.Some? && Step(g, t, OpenHandle).Some?
              && HandlesBecome(g, Step(g, t, OpenHandle).value, t, g.heap[g.ids.value].handles + {g.fs.value})
    ensures g.Pc(t) == StoreWork ==>
              && g.ids.Some? && HasStore(g.heap, g.ids.value) && Step(g, t, CloseHandles(f)).Some?
              && HandlesBecome(g, Step(g, t, CloseHandles(f)).value, t, g.heap[g.ids.value].handles - {f})
  {
    PcIsIn(g, t);
    if g.Pc(t) != Idle {
      LocalAt(g, t);
    }
    InvParts(g);
    hide Inv, Holds;
  }
}
