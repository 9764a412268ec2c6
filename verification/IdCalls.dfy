/**
 What each call of the handle table does, entry by entry of its five maps, and what that
 means for the calls that follow it.
 */
module IdCalls {
  import opened Wrappers
  import opened IdTables
  import opened IdRuns

  // ---------- One call ----------

  /** The maps agree on every key but `id`. */
  ghost predicate SameBut<V>(a: map<nat, V>, b: map<nat, V>, id: nat) {
    forall k :: k != id ==> (k in a <==> k in b) && (k in a ==> a[k] == b[k])
  }

  /** All that is open under another id stays as it is. */
  ghost predicate OthersStay(t: Table, u: Table, id: nat) {
    && SameBut(t.dirHandles, u.dirHandles, id) && SameBut(t.dirNames, u.dirNames, id)
    && SameBut(t.dirIters, u.dirIters, id)
    && SameBut(t.fileHandles, u.fileHandles, id) && SameBut(t.fileNames, u.fileNames, id)
  }

  /** The entries of `id` in the maps of the directories stay. */
  ghost predicate DirStays(t: Table, u: Table, id: nat) {
    && (id in t.dirHandles <==> id in u.dirHandles) && (id in t.dirHandles ==> u.dirHandles[id] == t.dirHandles[id])
    && (id in t.dirNames <==> id in u.dirNames) && (id in t.dirNames ==> u.dirNames[id] == t.dirNames[id])
    && (id in t.dirIters <==> id in u.dirIters) && (id in t.dirIters ==> u.dirIters[id] == t.dirIters[id])
  }

  /** And in those of the files. */
  ghost predicate FileStays(t: Table, u: Table, id: nat) {
    && (id in t.fileHandles <==> id in u.fileHandles)
    && (id in t.fileHandles ==> u.fileHandles[id] == t.fileHandles[id])
    && (id in t.fileNames <==> id in u.fileNames) && (id in t.fileNames ==> u.fileNames[id] == t.fileNames[id])
  }

  /** The id is no directory any more, and that is all that changed. */
  ghost predicate DirGone(t: Table, u: Table, id: nat) {
    && id !in u.dirHandles && id !in u.dirNames && id !in u.dirIters
    && OthersStay(t, u, id) && FileStays(t, u, id) && u.nextId == t.nextId
  }

  /** `close_dir` answers `Ok` exactly for an open directory, and then removes it from all three maps. */
  lemma CloseDirIs(t: Table, id: nat)
    ensures var r := Step(t, CloseDirOp(id));
            && (r.response == Closed(Ok(())) <==> id in t.dirHandles)
            && (id in t.dirHandles ==> DirGone(t, r.table, id))
            && (id !in t.dirHandles ==> r == Stepped(t, Closed(Err(FileNotFound))))
  {
  }

  /**
   `close_file` answers what the flush of an open file answers. The handle goes in any case;
   the name goes exactly if the flush succeeded.
   */
  lemma CloseFileIs(t: Table, id: nat, flush: Answer<()>)
    ensures var r := Step(t, CloseFileOp(id, flush));
            var u := r.table;
            && (id in t.fileHandles ==>
                  && r.response == Closed(flush)
                  && id !in u.fileHandles
                  && (id in u.fileNames <==> id in t.fileNames && flush.Err?)
                  && (id in u.fileNames ==> u.fileNames[id] == t.fileNames[id])
                  && OthersStay(t, u, id) && DirStays(t, u, id) && u.nextId == t.nextId)
            && (id !in t.fileHandles ==> r == Stepped(t, Closed(Err(FileNotFound))))
  {
    assert flush.Ok? ==> flush.value == ();
  }

  /** The counter moves on by one, and from its last value to 0. */
  ghost predicate CountsOn(t: Table, u: Table) {
    u.nextId == if t.nextId == 0xFFFF_FFFF_FFFF_FFFF then 0 else t.nextId + 1
  }

  lemma InsertFileIs(t: Table, path: string, node: Node)
    ensures var u, id := InsertFile(t, path, node), t.nextId;
            && id in u.fileHandles && u.fileHandles[id] == node && id in u.fileNames && u.fileNames[id] == path
            && OthersStay(t, u, id) && DirStays(t, u, id) && CountsOn(t, u)
  {
  }

  lemma InsertDirIs(t: Table, path: string, node: Node)
    ensures var u, id := InsertDir(t, path, node), t.nextId;
            && id in u.dirHandles && id in u.dirNames && id in u.dirIters
            && u.dirHandles[id] == node && u.dirNames[id] == path && u.dirIters[id] == 0
            && OthersStay(t, u, id) && FileStays(t, u, id) && CountsOn(t, u)
  {
  }

  /**
   `open_file` answers an id the path is open under, if there is one. Otherwise it answers
   the error of the file system, or that there is none, and changes nothing; or it puts
   what the file system opened under the next id.
   */
  lemma OpenFileIs(t: Table, fs: Option<Volume>, path: string)
    ensures var r := Step(t, OpenFileOp(fs, path));
            var u, id := r.table, t.nextId;
            && ((exists k :: k in t.fileNames && t.fileNames[k] == path) ==>
                  && u == t && r.response.Opened? && r.response.id.Ok?
                  && r.response.id.value in t.fileNames && t.fileNames[r.response.id.value] == path)
            && ((forall k :: k in t.fileNames ==> t.fileNames[k] != path) ==>
                  && (fs.None? ==> r == Stepped(t, Opened(Err(NotInitialized))))
                  && (fs.Some? && fs.value.openFileAt(path).Err? ==>
                        r == Stepped(t, Opened(Err(fs.value.openFileAt(path).error))))
                  && (fs.Some? && fs.value.openFileAt(path).Ok? ==>
                        && r.response == Opened(Ok(id))
                        && id in u.fileHandles && u.fileHandles[id] == fs.value.openFileAt(path).value
                        && id in u.fileNames && u.fileNames[id] == path
                        && OthersStay(t, u, id) && DirStays(t, u, id) && CountsOn(t, u)))
  {
    hide InsertFile, OthersStay, DirStays, CountsOn;
    if fs.Some? && fs.value.openFileAt(path).Ok? {
      InsertFileIs(t, path, fs.value.openFileAt(path).value);
    }
  }

  /** The same for `open_dir`, to which "/" and "" are names of the root; it starts at position 0. */
  lemma OpenDirIs(t: Table, fs: Option<Volume>, path: string)
    ensures var r := Step(t, OpenDirOp(fs, path));
            var u, id := r.table, t.nextId;
            && ((exists k :: k in t.dirNames && t.dirNames[k] == path) ==>
                  && u == t && r.response.Opened? && r.response.id.Ok?
                  && r.response.id.value in t.dirNames && t.dirNames[r.response.id.value] == path)
            && ((forall k :: k in t.dirNames ==> t.dirNames[k] != path) ==>
                  && (fs.None? ==> r == Stepped(t, Opened(Err(NotInitialized))))
                  && (fs.Some? && path != "/" && path != "" && fs.value.openDirAt(path).Err? ==>
                        r == Stepped(t, Opened(Err(fs.value.openDirAt(path).error))))
                  && (fs.Some? && (path == "/" || path == "" || fs.value.openDirAt(path).Ok?) ==>
                        && r.response == Opened(Ok(id))
                        && id in u.dirHandles && id in u.dirNames && id in u.dirIters
                        && u.dirHandles[id] == (if path == "/" || path == "" then fs.value.root
                                                else fs.value.openDirAt(path).value)
                        && u.dirNames[id] == path && u.dirIters[id] == 0
                        && OthersStay(t, u, id) && FileStays(t, u, id) && CountsOn(t, u)))
  {
    hide InsertDir, OthersStay, FileStays, CountsOn;
    if fs.Some? && ResolveDir(fs.value, path).Ok? {
      InsertDirIs(t, path, ResolveDir(fs.value, path).value);
    }
  }

  /** `read_next_dirent` yields the entry at the position of an open directory, which moves on. */
  lemma ReadDirIs(t: Table, vol: Volume, id: nat)
    ensures var r := Step(t, ReadDirOp(vol, id));
            var u := r.table;
            && (id !in t.dirHandles ==> r == Stepped(t, Dirent(Err(FileNotFound))))
            && (id in t.dirHandles && id !in t.dirIters ==> r == Stepped(t, Dirent(Err(Unknown))))
            && (id in t.dirHandles && id in t.dirIters ==>
                  && Yields(r.response, vol.listing(t.dirHandles[id]), t.dirIters[id])
                  && u == t.(dirIters := u.dirIters) && SameBut(t.dirIters, u.dirIters, id)
                  && id in u.dirIters && u.dirIters[id] == t.dirIters[id] + 1)
  {
  }

  // ---------- Runs behind a call ----------

  /** Nothing is open under the id. */
  ghost predicate Gone(t: Table, id: nat) {
    id !in t.fileNames && id !in t.fileHandles && id !in t.dirNames && id !in t.dirHandles
  }

  lemma StepStaysGone(t: Table, issued: nat, op: Op, id: nat)
    requires Inv(t, issued) && issued <= U64_MAX && id < issued && Gone(t, id)
    ensures Gone(Step(t, op).table, id)
    ensures op.ReadDirOp? && op.id == id ==> Step(t, op).response == Dirent(Err(FileNotFound))
  {
    hide NextId, Injective, ResolveDir;
  }

  /** The id finds nothing. */
  ghost predicate AllNotFound(answers: seq<Response>) {
    forall a :: a in answers ==> a == Dirent(Err(FileNotFound))
  }

  /** An id that was given out and is gone stays so along every run: no read and no path for it. */
  lemma {:induction false} GoneForever(t: Table, issued: nat, ops: seq<Op>, id: nat)
    requires Inv(t, issued) && issued + IssuedBy(t, ops) <= U64_MAX && id < issued && Gone(t, id)
    ensures var r := Run(t, ops);
            && Gone(r.table, id) && GetPathForId(r.table, id) == Err(FileNotFound)
            && AllNotFound(AnswersTo(ops, r.responses, id))
    decreases |ops|
  {
    hide Step, Inv, Issues;
    if ops == [] {
    } else {
      IssuedIsBounded(t, issued);
      StepKeepsInv(t, issued, ops[0]);
      StepStaysGone(t, issued, ops[0], id);
      var first := Step(t, ops[0]);
      GoneForever(first.table, issued + Count(Issues(t, ops[0])), ops[1..], id);
      assert Run(t, ops).responses[1..] == Run(first.table, ops[1..]).responses;
    }
  }

  lemma ClosedIsGone(t: Table, issued: nat, id: nat)
    requires Inv(t, issued) && issued <= U64_MAX && Step(t, CloseDirOp(id)).response == Closed(Ok(()))
    ensures var u := Step(t, CloseDirOp(id)).table;
            id < issued && Gone(u, id) && Inv(u, issued)
  {
    hide Injective;
    StepKeepsInv(t, issued, CloseDirOp(id));
  }

  /** The reads of `id` yield the entries from the first on, as long as the run leaves it open. */
  ghost predicate ReadFromStart(t: Table, ops: seq<Op>, id: nat) {
    var answers := AnswersTo(ops, Run(t, ops).responses, id);
    forall entries :: LeavesAlong(t, ops, id, entries) ==> InOrder(answers, entries, 0)
  }

  /** A directory that is opened anew is read from its first entry on, whatever else happens. */
  lemma OpenNewDir(t: Table, issued: nat, vol: Volume, path: string, later: seq<Op>)
    requires Inv(t, issued) && ResolveDir(vol, path).Ok? && forall k :: k in t.dirNames ==> t.dirNames[k] != path
    requires issued + 1 + IssuedBy(Step(t, OpenDirOp(Some(vol), path)).table, later) <= U64_MAX
    ensures var w := Step(t, OpenDirOp(Some(vol), path));
            && w.response == Opened(Ok(issued))
            && issued in w.table.dirHandles && w.table.dirHandles[issued] == ResolveDir(vol, path).value
            && ReadFromStart(w.table, later, issued)
  {
    var op := OpenDirOp(Some(vol), path);
    var w := Step(t, op);
    assert Issues(t, op);
    StepKeepsInv(t, issued, op);
    OpenDirIs(t, Some(vol), path);
    assert t.nextId == issued && issued in w.table.dirHandles && w.table.dirIters[issued] == 0;
    hide Step, Inv, Issues, ResolveDir, InOrder, LeavesAlong, Run;
    forall entries | LeavesAlong(w.table, later, issued, entries)
      ensures InOrder(AnswersTo(later, Run(w.table, later).responses, issued), entries, 0)
    {
      EnumerationInOrder(w.table, issued + 1, later, issued, entries);
    }
  }

  /**
   After a `close_dir` that returned `Ok`, every read of the id is answered `FileNotFound`
   along every run. Opening the path again, if no other call has, gives an id never seen
   before, and its reads yield the entries from the first on.
   */
  lemma ClosedDir(t: Table, issued: nat, id: nat, ops: seq<Op>, vol: Volume, path: string, later: seq<Op>)
    requires Inv(t, issued) && Step(t, CloseDirOp(id)).response == Closed(Ok(()))
    requires var u := Step(t, CloseDirOp(id)).table;
             var v := Run(u, ops).table;
             var w := Step(v, OpenDirOp(Some(vol), path));
             && issued + IssuedBy(u, ops) + 1 + IssuedBy(w.table, later) <= U64_MAX
             && (forall k :: k in v.dirNames ==> v.dirNames[k] != path)
             && ResolveDir(vol, path).Ok?
    ensures var u := Step(t, CloseDirOp(id)).table;
            var v := Run(u, ops).table;
            var w := Step(v, OpenDirOp(Some(vol), path));
            var again := issued + IssuedBy(u, ops);
            && AllNotFound(AnswersTo(ops, Run(u, ops).responses, id))
            && w.response == Opened(Ok(again)) && id < again
            && again in w.table.dirHandles && w.table.dirHandles[again] == ResolveDir(vol, path).value
            && ReadFromStart(w.table, later, again)
  {
    hide Step, Inv, Issues, ResolveDir, ReadFromStart, Run, IssuedBy, AnswersTo, Gone;
    var u := Step(t, CloseDirOp(id)).table;
    ClosedIsGone(t, issued, id);
    var v := Run(u, ops).table;
    GoneForever(u, issued, ops, id);
    RunKeepsInv(u, issued, ops);
    OpenNewDir(v, issued + IssuedBy(u, ops), vol, path, later);
  }

  // ---------- The path of an id ----------

  /** A close of the id that takes its path away, if it is open. */
  predicate Closes(op: Op, id: nat) {
    op == CloseDirOp(id) || (op.CloseFileOp? && op.id == id && op.flush.Ok?)
  }

  lemma StepKeepsPath(t: Table, issued: nat, op: Op, id: nat)
    requires Inv(t, issued) && issued <= U64_MAX && !Closes(op, id) && GetPathForId(t, id).Ok?
    ensures GetPathForId(Step(t, op).table, id) == GetPathForId(t, id)
  {
    hide NextId, Injective, ResolveDir;
  }

  lemma {:induction false} PathStays(t: Table, issued: nat, ops: seq<Op>, id: nat)
    requires Inv(t, issued) && issued + IssuedBy(t, ops) <= U64_MAX && GetPathForId(t, id).Ok?
    requires forall i :: 0 <= i < |ops| ==> !Closes(ops[i], id)
    ensures GetPathForId(Run(t, ops).table, id) == GetPathForId(t, id)
    decreases |ops|
  {
    hide Step, Inv, Issues, GetPathForId, Closes;
    if ops == [] {
    } else {
      IssuedIsBounded(t, issued);
      StepKeepsInv(t, issued, ops[0]);
      StepKeepsPath(t, issued, ops[0], id);
      PathStays(Step(t, ops[0]).table, issued + Count(Issues(t, ops[0])), ops[1..], id);
    }
  }

  lemma IssuedPath(t: Table, issued: nat, op: Op)
    requires Inv(t, issued) && issued <= U64_MAX && Issues(t, op)
    ensures op.OpenFileOp? || op.OpenDirOp?
    ensures GetPathForId(Step(t, op).table, issued) == Ok(op.path)
    ensures Inv(Step(t, op).table, issued + 1)
  {
    hide NextId, Injective, ResolveDir;
    StepKeepsInv(t, issued, op);
  }

  lemma CloseGoes(t: Table, issued: nat, close: Op, id: nat)
    requires Inv(t, issued) && issued <= U64_MAX && Closes(close, id) && Step(t, close).response == Closed(Ok(()))
    ensures Inv(Step(t, close).table, issued) && Gone(Step(t, close).table, id)
  {
    StepKeepsInv(t, issued, close);
    hide Injective;
  }

  /**
   Along every run, the path of an id is the path of the operation that issued it, until the
   id is closed, and from then on there is none.
   */
  lemma PathOfIssuer(t: Table, issued: nat, op: Op, ops: seq<Op>, close: Op, later: seq<Op>)
    requires Inv(t, issued) && Issues(t, op)
    requires var u := Step(t, op).table;
             var v := Step(Run(u, ops).table, close).table;
             && issued + 1 + IssuedBy(u, ops) + IssuedBy(v, later) <= U64_MAX
             && (forall i :: 0 <= i < |ops| ==> !Closes(ops[i], issued))
             && Closes(close, issued) && Step(Run(u, ops).table, close).response == Closed(Ok(()))
    ensures var u := Step(t, op).table;
            var v := Step(Run(u, ops).table, close).table;
            && (op.OpenFileOp? || op.OpenDirOp?)
            && GetPathForId(Run(u, ops).table, issued) == Ok(op.path)
            && GetPathForId(Run(v, later).table, issued) == Err(FileNotFound)
  {
    hide Step, Inv, Issues, GetPathForId, Closes, Run, IssuedBy, AnswersTo, Gone;
    IssuedPath(t, issued, op);
    var u := Step(t, op).table;
    PathStays(u, issued + 1, ops, issued);
    RunKeepsInv(u, issued + 1, ops);
    var w := Run(u, ops).table;
    CloseGoes(w, issued + 1 + IssuedBy(u, ops), close, issued);
    GoneForever(Step(w, close).table, issued + 1 + IssuedBy(u, ops), later, issued);
  }
}
