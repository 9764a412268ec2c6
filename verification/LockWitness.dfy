/** Schedules from the start that reach a deadlock, and two threads in one file system. */
module LockWitnesses {
  import opened Wrappers
  import opened Locks
  import opened LockRuns
  import opened LockCalls
  import opened Leaks
  import opened Deadlock
  import opened Doom

  // ---------- Schedules, step by step ----------

  lemma Extend(start: State, sched: Schedule, g: State, t: nat, c: Choice, h: State) returns (longer: Schedule)
    requires Run(start, sched) == Some(g) && Step(g, t, c) == Some(h)
    ensures Run(start, longer) == Some(h)
  {
    longer := sched + [(t, c)];
    RunAppend(start, sched, [(t, c)]);
    RunOne(g, t, c);
  }

  /** The library with everything there, and `handles` in the store. */
  function Built(t: nat, pc: PC, ids: Option<nat>, handles: set<nat>): State {
    State(Some(0), Some(1), ids, map[0 := Ctx, 1 := FsBox(0), 2 := Store(handles)], 3, [], map[t := pc])
  }

  lemma StartAlone(t: nat)
    ensures Alone(START, t, Idle) && !Initialized(START)
  {
  }

  lemma BuiltIsFresh(t: nat)
    ensures AlmostFresh(START.At(t, InitBuild), t, WantInitIds(2)) == Built(t, WantInitIds(2), None, {})
    ensures Fresh(START, t, Idle) == Built(t, Idle, Some(2), {})
  {
  }

  lemma BuiltAt(t: nat, pc: PC, next: PC, handles: set<nat>)
    ensures Built(t, pc, Some(2), handles).At(t, next) == Built(t, next, Some(2), handles)
  {
  }

  lemma BuiltAlone(t: nat, pc: PC, handles: set<nat>)
    ensures var g := Built(t, pc, Some(2), handles);
            Alone(g, t, pc) && g.fs == Some(1) && g.ids == Some(2)
  {
  }

  /** An `Initialize` that meets nobody gets as far as its last mutex. */
  lemma InitReachesLastWait(t: nat) returns (sched: Schedule)
    ensures Run(START, sched) == Some(Built(t, WantInitIds(2), None, {}))
  {
    hide Step, Run, Alone, Gos, Fresh, WithContext, WithMounted, AlmostFresh, Built;
    var h := START.At(t, InitBuild);
    StartAlone(t);
    LoneBegins(START, t, 6);
    LoneContext(h, t, 3);
    LoneMount(h, t, 1);
    LonePublish(h, t, 0);
    GoNone(AlmostFresh(h, t, WantInitIds(2)), t);
    BuiltIsFresh(t);
    sched := [(t, Call(WantProbeIds(Initialize)))] + Gos(t, 10);
  }

  /** And to its end. */
  lemma InitDone(t: nat) returns (sched: Schedule)
    ensures Run(START, sched) == Some(Built(t, Idle, Some(2), {}))
  {
    hide Step, Run, Alone, Gos, Fresh, Built;
    StartAlone(t);
    LoneInitialize(START, t);
    BuiltIsFresh(t);
    sched := [(t, Call(WantProbeIds(Initialize)))] + Gos(t, 12);
  }

  // ---------- A box that is lost ----------

  lemma ContextAlone(t: nat)
    ensures Alone(WithContext(START, t, Idle), t, Idle) && !Initialized(WithContext(START, t, Idle))
  {
  }

  lemma FreshLeaks(g: State, t: nat)
    requires g == WithContext(START, t, Idle)
    ensures Leaked(Fresh(g, t, Idle)) == {0} && HasCtx(Fresh(g, t, Idle).heap, 0)
  {
    var h := Fresh(g, t, Idle);
    assert forall u :: u in h.pcs ==> Pending(h.pcs[u]).None?;
  }

  /** After a mount that failed, the next `usbFsInitialize` that succeeds loses the context of the first. */
  lemma FailedMountLeaks(t: nat) returns (sched: Schedule)
    ensures Run(START, sched).Some? && Leaked(Run(START, sched).value) == {0}
    ensures HasCtx(Run(START, sched).value.heap, 0) && Initialized(Run(START, sched).value)
  {
    hide Step, Run, Alone, Gos, Leaked;
    var call := [(t, Call(WantProbeIds(Initialize)))];
    StartAlone(t);
    LoneInitializeFails(START, t);
    var g := WithContext(START, t, Idle);
    assert Alone(g, t, Idle) && !Initialized(g) by { ContextAlone(t); }
    LoneInitialize(g, t);
    RunAppend(START, call + Gos(t, 7) + [(t, Fail)], call + Gos(t, 12));
    sched := call + Gos(t, 7) + [(t, Fail)] + (call + Gos(t, 12));
    FreshLeaks(g, t);
  }

  // ---------- The deadlock ----------

  lemma ProbeEnters(g: State, t: nat, u: nat)
    requires t != u && g.pcs == map[t := WantInitIds(2)]
    ensures Step(g, u, Call(WantProbeIds(IsInitialized))) == Some(g.At(u, WantProbeIds(IsInitialized)))
  {
    assert g.Pc(u) == Idle;
  }

  lemma ProbeTakesIds(g: State, t: nat, u: nat)
    requires t != u && g.pcs == map[t := WantInitIds(2), u := WantProbeIds(IsInitialized)]
    ensures Step(g, u, Go) == Some(g.At(u, WantProbeUsb(IsInitialized)))
  {
    assert g.Pc(u) == WantProbeIds(IsInitialized);
  }

  lemma ProbeWaits(g: State, t: nat, u: nat)
    requires t != u && g.pcs == map[t := WantInitIds(2), u := WantProbeUsb(IsInitialized)]
    ensures MutualWait(g, t, u) && Doomed(g)
  {
    assert Crossed(g.pcs[t], g.pcs[u]);
  }

  /**
   The deadlock: while `usbFsInitialize` is about to take the id store, another thread asks
   `usbFsIsInitialized`, takes the id store first, and waits for the context.
   */
  lemma InitializeCanDeadlock(t: nat, u: nat) returns (sched: Schedule)
    requires t != u
    ensures Run(START, sched).Some? && MutualWait(Run(START, sched).value, t, u) && Doomed(Run(START, sched).value)
  {
    hide Step, Run, Holds, Wants, MutualWait, Doomed;
    sched := InitReachesLastWait(t);
    var g := Built(t, WantInitIds(2), None, {});
    var g1 := g.At(u, WantProbeIds(IsInitialized));
    var g2 := g1.At(u, WantProbeUsb(IsInitialized));
    ProbeEnters(g, t, u);
    ProbeTakesIds(g1, t, u);
    ProbeWaits(g2, t, u);
    sched := Extend(START, sched, g, u, Call(WantProbeIds(IsInitialized)), g1);
    sched := Extend(START, sched, g1, u, Go, g2);
  }

  // ---------- Two threads in one file system ----------

  lemma TakeStore(g: State, t: nat)
    requires Alone(g, t, WantStore)
    ensures Step(g, t, Go) == Some(g.At(t, StoreCheck))
  {
    AloneTakes(g, t, WantStore);
  }

  /** One thread alone gets to work on the store. */
  lemma LoneWork(before: Schedule, t: nat, handles: set<nat>) returns (sched: Schedule)
    requires Run(START, before) == Some(Built(t, Idle, Some(2), handles))
    ensures Run(START, sched) == Some(Built(t, StoreWork, Some(2), handles))
  {
    hide Step, Run, Holds, Built, Alone;
    BuiltAlone(t, Idle, handles);
    BuiltAt(t, Idle, WantStore, handles);
    BuiltAlone(t, WantStore, handles);
    BuiltAt(t, WantStore, StoreCheck, handles);
    BuiltAlone(t, StoreCheck, handles);
    BuiltAt(t, StoreCheck, StoreWork, handles);
    var g0, g1 := Built(t, Idle, Some(2), handles), Built(t, WantStore, Some(2), handles);
    var g2, g3 := Built(t, StoreCheck, Some(2), handles), Built(t, StoreWork, Some(2), handles);
    AloneCalls(g0, t, WantStore);
    TakeStore(g1, t);
    AloneLooks(g2, t, StoreCheck, Go);
    sched := Extend(START, before, g0, t, Call(WantStore), g1);
    sched := Extend(START, sched, g1, t, Go, g2);
    sched := Extend(START, sched, g2, t, Go, g3);
  }

  lemma TakeStoreFs(g: State, t: nat)
    requires Alone(g, t, WantStoreFs)
    ensures Step(g, t, Go) == Some(g.At(t, StoreFsCheck))
  {
    AloneTakes(g, t, WantStoreFs);
  }

  lemma LoneOpens(g: State, t: nat)
    requires g == Built(t, StoreFsWork, Some(2), {})
    ensures Step(g, t, OpenHandle) == Some(Built(t, Idle, Some(2), {1}))
  {
    var handles: set<nat> := g.heap[2].handles + {1};
    assert handles == {1};
    assert g.WithHandles(handles).At(t, Idle) == Built(t, Idle, Some(2), {1});
  }

  /** And opens a handle into the file system. */
  lemma LoneOpen(before: Schedule, t: nat) returns (sched: Schedule)
    requires Run(START, before) == Some(Built(t, StoreWork, Some(2), {}))
    ensures Run(START, sched) == Some(Built(t, Idle, Some(2), {1}))
  {
    hide Step, Run, Holds, Built, Alone;
    BuiltAlone(t, StoreWork, {});
    BuiltAt(t, StoreWork, WantStoreFs, {});
    BuiltAlone(t, WantStoreFs, {});
    BuiltAt(t, WantStoreFs, StoreFsCheck, {});
    BuiltAlone(t, StoreFsCheck, {});
    BuiltAt(t, StoreFsCheck, StoreFsWork, {});
    var g0, g1 := Built(t, StoreWork, Some(2), {}), Built(t, WantStoreFs, Some(2), {});
    var g2, g3 := Built(t, StoreFsCheck, Some(2), {}), Built(t, StoreFsWork, Some(2), {});
    AloneLooks(g0, t, StoreWork, TakeFs);
    TakeStoreFs(g1, t);
    AloneLooks(g2, t, StoreFsCheck, Go);
    LoneOpens(g3, t);
    sched := Extend(START, before, g0, t, TakeFs, g1);
    sched := Extend(START, sched, g1, t, Go, g2);
    sched := Extend(START, sched, g2, t, Go, g3);
    sched := Extend(START, sched, g3, t, OpenHandle, Built(t, Idle, Some(2), {1}));
  }

  lemma OtherCalls(g: State, t: nat, u: nat)
    requires t != u && g.pcs == map[t := StoreWork]
    ensures Step(g, u, Call(WantFs)) == Some(g.At(u, WantFs))
  {
  }

  lemma OtherTakes(g: State, t: nat, u: nat)
    requires t != u && g.pcs == map[t := StoreWork, u := WantFs]
    ensures Step(g, u, Go) == Some(g.At(u, FsCheck))
  {
  }

  lemma OtherWorks(g: State, t: nat, u: nat)
    requires t != u && g.pcs == map[t := StoreWork, u := FsCheck] && g.fs.Some?
    ensures Step(g, u, Go) == Some(g.At(u, FsWork))
  {
  }

  /**
   Two threads in one file system: one works on the store, which has a handle into it, and
   the other is in `usbFsStatFilesystem`.
   */
  lemma SharedUseWitness(t: nat, u: nat) returns (sched: Schedule)
    requires t != u
    ensures Run(START, sched).Some?
    ensures var g := Run(START, sched).value;
            t in g.pcs && u in g.pcs && 1 in Uses(g, g.pcs[t]) * Uses(g, g.pcs[u]) && HasFs(g.heap, 1)
  {
    hide Step, Run, Holds;
    sched := InitDone(t);
    sched := LoneWork(sched, t, {});
    sched := LoneOpen(sched, t);
    sched := LoneWork(sched, t, {1});
    var g0 := Built(t, StoreWork, Some(2), {1});
    var g1 := g0.At(u, WantFs);
    var g2 := g1.At(u, FsCheck);
    OtherCalls(g0, t, u);
    OtherTakes(g1, t, u);
    OtherWorks(g2, t, u);
    sched := Extend(START, sched, g0, u, Call(WantFs), g1);
    sched := Extend(START, sched, g1, u, Go, g2);
    sched := Extend(START, sched, g2, u, Go, g2.At(u, FsWork));
  }
}
