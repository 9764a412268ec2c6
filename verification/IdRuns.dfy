/** What whole runs of the handle table keep, and where a run can go wrong. */
module IdRuns {
  import opened Wrappers
  import opened IdTables

  function Count(b: bool): nat { if b then 1 else 0 }

  /** The number of ids a run gives out. */
  ghost function IssuedBy(t: Table, ops: seq<Op>): (n: nat)
    ensures n <= |ops|
    decreases |ops|
  {
    if ops == [] then 0
    else Count(Issues(t, ops[0])) + IssuedBy(Step(t, ops[0]).table, ops[1..])
  }

  /** The ids a run closes without managing to flush them. */
  ghost function LostBy(t: Table, ops: seq<Op>): set<nat>
    decreases |ops|
  {
    if ops == [] then {}
    else (if LosesHandle(t, ops[0]) then {ops[0].id} else {}) + LostBy(Step(t, ops[0]).table, ops[1..])
  }

  lemma IssuedIsBounded(t: Table, issued: nat)
    requires Inv(t, issued)
    ensures issued <= U64_MAX + 1 && Coherent(t)
  {
  }

  /** As long as fewer than 2^64 ids have been given out, every run keeps the invariant. */
  lemma {:induction false} RunKeepsInv(t: Table, issued: nat, ops: seq<Op>)
    requires Inv(t, issued) && issued + IssuedBy(t, ops) <= U64_MAX
    ensures var u := Run(t, ops).table;
            && Inv(u, issued + IssuedBy(t, ops))
            && Stale(u) == Stale(t) + LostBy(t, ops)
    decreases |ops|
  {
    hide Inv, Step, Issues, LosesHandle, Stale;
    if ops == [] {
    } else {
      IssuedIsBounded(t, issued);
      StepKeepsInv(t, issued, ops[0]);
      RunKeepsInv(Step(t, ops[0]).table, issued + Count(Issues(t, ops[0])), ops[1..]);
    }
  }

  /**
   Every run from an empty table leaves it coherent, and each file name has its handle
   exactly if no close of the run failed to flush.
   */
  lemma RunFromEmpty(ops: seq<Op>)
    requires IssuedBy(EMPTY, ops) <= U64_MAX
    ensures var u := Run(EMPTY, ops).table;
            && Coherent(u)
            && (u.fileHandles.Keys == u.fileNames.Keys <==> LostBy(EMPTY, ops) == {})
  {
    RunKeepsInv(EMPTY, 0, ops);
    var u := Run(EMPTY, ops).table;
    assert Stale(EMPTY) == {};
    if Stale(u) == {} {
      forall k | k in u.fileNames.Keys ensures k in u.fileHandles.Keys {
        assert k !in Stale(u);
      }
    }
  }

  // ---------- A close that could not flush ----------

  lemma StepKeepsStale(t: Table, issued: nat, op: Op, id: nat)
    requires Inv(t, issued) && issued <= U64_MAX && id in Stale(t)
    ensures var u := Step(t, op).table;
            id in Stale(u) && u.fileNames[id] == t.fileNames[id]
  {
  }

  /** The path of such a close never opens again: it keeps naming an id without a handle. */
  lemma {:induction false} StaleForever(t: Table, issued: nat, ops: seq<Op>, id: nat, fs: Option<Volume>)
    requires Inv(t, issued) && issued + IssuedBy(t, ops) <= U64_MAX && id in Stale(t)
    ensures var u := Run(t, ops).table;
            && id in Stale(u) && u.fileNames[id] == t.fileNames[id]
            && OpenFile(u, fs, t.fileNames[id]) == Stepped(u, Opened(Ok(id)))
    decreases |ops|
  {
    hide Step, Inv, Issues, InsertFile;
    if ops == [] {
      IssuedIsBounded(t, issued);
    } else {
      IssuedIsBounded(t, issued);
      StepKeepsInv(t, issued, ops[0]);
      StepKeepsStale(t, issued, ops[0], id);
      StaleForever(Step(t, ops[0]).table, issued + Count(Issues(t, ops[0])), ops[1..], id, fs);
    }
  }

  /** An id that `open_file` returns has a handle exactly if no failed close left its path behind. */
  lemma OpenedIsUsableIff(t: Table, issued: nat, fs: Option<Volume>, path: string)
    requires Inv(t, issued) && issued <= U64_MAX
    requires OpenFile(t, fs, path).response.id.Ok?
    ensures var r := OpenFile(t, fs, path);
            r.response.id.value in r.table.fileHandles
            <==> !exists k :: k in Stale(t) && t.fileNames[k] == path
  {
    var found := Find(t.fileNames, path);
    if found.Some? && exists k :: k in Stale(t) && t.fileNames[k] == path {
      var k :| k in Stale(t) && t.fileNames[k] == path;
      assert k == found.value;
    }
  }

  lemma RunCons(t: Table, op: Op, ops: seq<Op>)
    ensures var rest := Run(Step(t, op).table, ops);
            Run(t, [op] + ops) == Ran(rest.table, [Step(t, op).response] + rest.responses)
  {
    hide Step;
    assert ([op] + ops)[1..] == ops;
  }

  /** It happens: a file opened, closed without managing to flush it, and opened again. */
  lemma LostCloseWitness(vol: Volume, path: string, e: Code) returns (t: Table)
    requires vol.openFileAt(path).Ok?
    ensures var ops := [OpenFileOp(Some(vol), path), CloseFileOp(0, Err(e)), OpenFileOp(Some(vol), path)];
            && t == Run(EMPTY, ops).table
            && Run(EMPTY, ops).responses == [Opened(Ok(0)), Closed(Err(e)), Opened(Ok(0))]
            && 0 !in t.fileHandles
  {
    hide NextId;
    var node := vol.openFileAt(path).value;
    var t1 := InsertFile(EMPTY, path, node);
    assert Step(EMPTY, OpenFileOp(Some(vol), path)) == Stepped(t1, Opened(Ok(0)));
    var t2 := t1.(fileHandles := t1.fileHandles - {0});
    assert Step(t1, CloseFileOp(0, Err(e))) == Stepped(t2, Closed(Err(e)));
    assert t2.fileNames == map[0 := path];
    assert 0 in t2.fileNames && Find(t2.fileNames, path) == Some(0);
    assert Step(t2, OpenFileOp(Some(vol), path)) == Stepped(t2, Opened(Ok(0)));
    t := t2;
    RunCons(t2, OpenFileOp(Some(vol), path), []);
    RunCons(t1, CloseFileOp(0, Err(e)), [OpenFileOp(Some(vol), path)]);
    RunCons(EMPTY, OpenFileOp(Some(vol), path), [CloseFileOp(0, Err(e)), OpenFileOp(Some(vol), path)]);
  }

  lemma RunNothing(t: Table)
    ensures Run(t, []) == Ran(t, [])
  {
  }

  // ---------- After 2^64 ids ----------

  /** Every live id keeps its path, its handle and its position. */
  ghost predicate AllKept(t: Table, u: Table) {
    && (forall k :: k in t.fileNames ==> k in u.fileNames && u.fileNames[k] == t.fileNames[k])
    && (forall k :: k in t.fileHandles ==> k in u.fileHandles && u.fileHandles[k] == t.fileHandles[k])
    && (forall k :: k in t.dirNames ==> k in u.dirNames && u.dirNames[k] == t.dirNames[k])
    && (forall k :: k in t.dirHandles ==> k in u.dirHandles && u.dirHandles[k] == t.dirHandles[k])
    && (forall k :: k in t.dirIters ==> k in u.dirIters && u.dirIters[k] == t.dirIters[k])
  }

  function Live(t: Table): set<nat> {
    t.fileNames.Keys + t.dirNames.Keys
  }

  /**
   Once the counter has come round, the insertion of a file keeps the table coherent and
   all that is open in place exactly if the id it reuses is not live.
   */
  lemma WrapDisplacesIff(t: Table, path: string, node: Node)
    requires Coherent(t) && Find(t.fileNames, path).None?
    ensures var u := InsertFile(t, path, node);
            Coherent(u) && AllKept(t, u) <==> t.nextId !in Live(t)
  {
    hide NextId;
    var u := InsertFile(t, path, node);
    assert t.nextId in u.fileNames && u.fileNames[t.nextId] == path;
    if t.nextId !in Live(t) {
      assert Injective(u.fileNames);
    } else if t.nextId in t.fileNames {
      assert u.fileNames[t.nextId] != t.fileNames[t.nextId];
    } else {
      assert t.nextId in u.fileNames.Keys * u.dirNames.Keys;
    }
  }

  lemma InjectiveInsert(names: map<nat, string>, k: nat, path: string)
    requires Injective(names) && k !in names && forall i :: i in names ==> names[i] != path
    ensures Injective(names[k := path])
  {
  }

  lemma FreshDirKeeps(t: Table, path: string, node: Node)
    requires Coherent(t) && Find(t.dirNames, path).None? && t.nextId !in Live(t)
    ensures Coherent(InsertDir(t, path, node)) && AllKept(t, InsertDir(t, path, node))
  {
    hide NextId, Find, Injective;
    InjectiveInsert(t.dirNames, t.nextId, path);
    var u := InsertDir(t, path, node);
    assert u.dirNames.Keys == t.dirNames.Keys + {t.nextId} && u.dirHandles.Keys == t.dirHandles.Keys + {t.nextId};
    assert u.dirIters.Keys == t.dirIters.Keys + {t.nextId};
  }

  lemma LiveDirDisplaces(t: Table, path: string, node: Node)
    requires Coherent(t) && Find(t.dirNames, path).None? && t.nextId in Live(t)
    ensures var u := InsertDir(t, path, node);
            && !(Coherent(u) && AllKept(t, u))
            && (t.nextId in t.dirNames ==> u.dirNames.Keys == t.dirNames.Keys && u.dirHandles[t.nextId] == node)
  {
    hide NextId, Find, Injective;
    var u := InsertDir(t, path, node);
    if t.nextId in t.dirNames {
      assert u.dirNames[t.nextId] != t.dirNames[t.nextId];
    } else {
      assert t.nextId in u.fileNames.Keys * u.dirNames.Keys;
    }
  }

  /** And the insertion of a directory: on a live directory the key sets stay, but not what is open. */
  lemma WrapDisplacesDirIff(t: Table, path: string, node: Node)
    requires Coherent(t) && Find(t.dirNames, path).None?
    ensures var u := InsertDir(t, path, node);
            && (Coherent(u) && AllKept(t, u) <==> t.nextId !in Live(t))
            && (t.nextId in t.dirNames ==> u.dirNames.Keys == t.dirNames.Keys && u.dirHandles[t.nextId] == node)
  {
    hide InsertDir, Coherent, AllKept, Find;
    if t.nextId in Live(t) {
      LiveDirDisplaces(t, path, node);
    } else {
      FreshDirKeeps(t, path, node);
    }
  }

  /** Opens and closes a file `n` times; the first of the ids is `id`. */
  function Churn(vol: Volume, path: string, id: nat, n: nat): seq<Op>
    decreases n
  {
    if n == 0 then []
    else [OpenFileOp(Some(vol), path)] + ([CloseFileOp(id, Ok(()))] + Churn(vol, path, NextId(id), n - 1))
  }

  /** The counter after `n` ids. */
  function Advanced(id: nat, n: nat): nat
    decreases n
  {
    if n == 0 then id else Advanced(NextId(id), n - 1)
  }

  lemma NextIdBelow(id: nat)
    requires id < U64_MAX
    ensures NextId(id) == id + 1
  {
  }

  /** A file opened and closed again leaves nothing but the advanced counter. */
  lemma OpenClose(t: Table, vol: Volume, path: string)
    requires vol.openFileAt(path).Ok? && Find(t.fileNames, path).None?
    requires t.nextId !in t.fileNames && t.nextId !in t.fileHandles
    ensures Step(Step(t, OpenFileOp(Some(vol), path)).table, CloseFileOp(t.nextId, Ok(()))).table
         == t.(nextId := NextId(t.nextId))
  {
    hide NextId;
    var t1 := InsertFile(t, path, vol.openFileAt(path).value);
    assert t1.fileNames - {t.nextId} == t.fileNames && t1.fileHandles - {t.nextId} == t.fileHandles;
  }

  lemma {:induction false} ChurnRun(t: Table, vol: Volume, path: string, n: nat)
    requires vol.openFileAt(path).Ok? && Find(t.fileNames, path).None?
    requires forall k :: t.nextId <= k ==> k !in t.fileNames && k !in t.fileHandles
    requires t.nextId + n <= U64_MAX + 1
    ensures Run(t, Churn(vol, path, t.nextId, n)).table == t.(nextId := Advanced(t.nextId, n))
    decreases n
  {
    hide NextId, Step, Run;
    if n == 0 {
      RunNothing(t);
    } else {
      var id := t.nextId;
      var t1 := Step(t, OpenFileOp(Some(vol), path)).table;
      var later := Churn(vol, path, NextId(id), n - 1);
      RunCons(t, OpenFileOp(Some(vol), path), [CloseFileOp(id, Ok(()))] + later);
      RunCons(t1, CloseFileOp(id, Ok(())), later);
      OpenClose(t, vol, path);
      var t2 := t.(nextId := NextId(id));
      if n == 1 {
        RunNothing(t2);
      } else {
        NextIdBelow(id);
        ChurnRun(t2, vol, path, n - 1);
      }
    }
  }

  lemma {:induction false} AdvancedWraps(id: nat, n: nat)
    requires id <= U64_MAX && n == U64_MAX + 1 - id
    ensures Advanced(id, n) == 0
    decreases n
  {
    if id == U64_MAX {
      assert Advanced(NextId(id), 0) == 0;
    } else {
      AdvancedWraps(id + 1, n - 1);
    }
  }

  /** The run of the witness: `a` is opened and stays open, `b` comes and goes 2^64 - 1 times. */
  function WrapOps(vol: Volume, a: string, b: string, n: nat): seq<Op> {
    [OpenFileOp(Some(vol), a)] + Churn(vol, b, 1, n)
  }

  /** It happens: after 2^64 ids, the next file takes the id of one that is still open. */
  lemma WrapWitness(vol: Volume, a: string, b: string, c: string, n: nat) returns (t: Table, u: Table)
    requires a != b && a != c && n == U64_MAX
    requires vol.openFileAt(a).Ok? && vol.openFileAt(b).Ok? && vol.openFileAt(c).Ok?
    ensures t == Run(EMPTY, WrapOps(vol, a, b, n)).table && u == Step(t, OpenFileOp(Some(vol), c)).table
    ensures t.fileNames == map[0 := a] && t.fileHandles == map[0 := vol.openFileAt(a).value]
    ensures u.fileNames == map[0 := c] && u.fileHandles == map[0 := vol.openFileAt(c).value]
  {
    hide Churn, Advanced;
    var t1 := InsertFile(EMPTY, a, vol.openFileAt(a).value);
    assert t1.nextId == 1 && t1.fileNames == map[0 := a];
    RunCons(EMPTY, OpenFileOp(Some(vol), a), Churn(vol, b, 1, n));
    ChurnRun(t1, vol, b, n);
    AdvancedWraps(1, n);
    t := t1.(nextId := 0);
    assert Find(t.fileNames, c).None?;
    u := InsertFile(t, c, vol.openFileAt(c).value);
    assert u.fileNames == map[0 := c] && u.fileHandles == map[0 := vol.openFileAt(c).value];
  }

  // ---------- Enumerating a directory ----------

  /** The operation leaves the handle `id` open, and finds `entries` in its directory. */
  ghost predicate Leaves(t: Table, op: Op, id: nat, entries: seq<Answer<Entry>>)
    requires id in t.dirHandles
  {
    && (op.CloseDirOp? ==> op.id != id)
    && (op.ReadDirOp? && op.id == id ==> op.vol.listing(t.dirHandles[id]) == entries)
  }

  ghost predicate LeavesAlong(t: Table, ops: seq<Op>, id: nat, entries: seq<Answer<Entry>>)
    decreases |ops|
  {
    ops == []
    || (id in t.dirHandles && Leaves(t, ops[0], id, entries)
        && LeavesAlong(Step(t, ops[0]).table, ops[1..], id, entries))
  }

  /** The answers of a run to the reads of `id`. */
  function AnswersTo(ops: seq<Op>, rs: seq<Response>, id: nat): seq<Response>
    requires |rs| == |ops|
    decreases |ops|
  {
    if ops == [] then []
    else (if ops[0].ReadDirOp? && ops[0].id == id then [rs[0]] else []) + AnswersTo(ops[1..], rs[1..], id)
  }

  /** The answer is the entry at position `k`, the error that stands there, or `None` behind the last. */
  predicate Yields(answer: Response, entries: seq<Answer<Entry>>, k: nat) {
    && (answer == Dirent(Ok(None)) <==> k >= |entries|)
    && (k < |entries| && entries[k].Ok? ==> answer == Dirent(Ok(Some(entries[k].value))))
    && (k < |entries| && entries[k].Err? ==> answer == Dirent(Err(entries[k].error)))
  }

  /** The answers are the entries from position `from` on, one by one, and `None` behind the last. */
  ghost predicate InOrder(answers: seq<Response>, entries: seq<Answer<Entry>>, from: nat) {
    forall k :: 0 <= k < |answers| ==> Yields(answers[k], entries, from + k)
  }

  lemma StepKeepsCursor(t: Table, issued: nat, op: Op, id: nat, entries: seq<Answer<Entry>>)
    requires Inv(t, issued) && issued <= U64_MAX && id in t.dirHandles && Leaves(t, op, id, entries)
    ensures var r := Step(t, op);
            var here := op.ReadDirOp? && op.id == id;
            && id in r.table.dirHandles && r.table.dirHandles[id] == t.dirHandles[id]
            && r.table.dirIters[id] == t.dirIters[id] + Count(here)
            && (here ==> Yields(r.response, entries, t.dirIters[id]))
  {
    hide Injective, NextId, ResolveDir;
    assert id in t.dirIters && id != t.nextId;
  }

  lemma NoAnswers(entries: seq<Answer<Entry>>, from: nat)
    ensures InOrder([], entries, from)
  {
  }

  /** The answers in order from position `at` on, behind the answer of a first operation. */
  lemma AnswersShift(first: Response, rest: seq<Response>, here: bool, entries: seq<Answer<Entry>>, from: nat, at: nat)
    requires at == from + Count(here) && (here ==> Yields(first, entries, from))
    requires InOrder(rest, entries, at)
    ensures InOrder((if here then [first] else []) + rest, entries, from)
  {
    hide Yields;
    var answers := (if here then [first] else []) + rest;
    forall k | 0 <= k < |answers|
      ensures Yields(answers[k], entries, from + k)
    {
      if here && k > 0 {
        assert answers[k] == rest[k - 1] && Yields(rest[k - 1], entries, at + (k - 1));
      }
    }
  }

  /**
   However the reads of a directory are mixed with other operations, the k-th of them
   yields entry k: each entry once, in order, and then `None` for ever.
   */
  lemma {:induction false} EnumerationInOrder(t: Table, issued: nat, ops: seq<Op>, id: nat, entries: seq<Answer<Entry>>)
    requires Inv(t, issued) && issued + IssuedBy(t, ops) <= U64_MAX
    requires id in t.dirHandles && LeavesAlong(t, ops, id, entries)
    ensures InOrder(AnswersTo(ops, Run(t, ops).responses, id), entries, t.dirIters[id])
    decreases |ops|
  {
    hide Step, Inv, Issues, Yields, Leaves, InOrder;
    IssuedIsBounded(t, issued);
    if ops == [] {
      NoAnswers(entries, t.dirIters[id]);
    } else {
      StepKeepsInv(t, issued, ops[0]);
      StepKeepsCursor(t, issued, ops[0], id, entries);
      var first := Step(t, ops[0]);
      IssuedIsBounded(first.table, issued + Count(Issues(t, ops[0])));
      EnumerationInOrder(first.table, issued + Count(Issues(t, ops[0])), ops[1..], id, entries);
      var rs, later := Run(t, ops).responses, Run(first.table, ops[1..]).responses;
      assert rs[1..] == later;
      var at, rest := first.table.dirIters[id], AnswersTo(ops[1..], later, id);
      AnswersShift(first.response, rest, ops[0].ReadDirOp? && ops[0].id == id, entries, t.dirIters[id], at);
    }
  }

  /** Opening an open directory again goes on where the handle stands, and starts at entry 0 only if it does. */
  lemma ReopenSharesCursor(t: Table, issued: nat, fs: Option<Volume>, vol: Volume, id: nat)
    requires Inv(t, issued) && id in t.dirNames
    ensures var again := OpenDir(t, fs, t.dirNames[id]);
            && again == Stepped(t, Opened(Ok(id)))
            && id in t.dirHandles && id in t.dirIters
            && Yields(ReadNextDirent(again.table, vol, id).response, vol.listing(t.dirHandles[id]), t.dirIters[id])
  {
    assert Find(t.dirNames, t.dirNames[id]).Some?;
  }
}
