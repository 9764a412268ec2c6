/** `IdStore` as src/capi_helpers/idstore.rs writes it: hash maps updated in place. */
module IdStores {
  import opened Wrappers
  import opened IdTables

  class IdStore {
    var nextId: nat
    var dirHandleMap: map<nat, Node>
    var dirNameMap: map<nat, string>
    var dirIterMap: map<nat, nat>
    var fileHandleMap: map<nat, Node>
    var fileNameMap: map<nat, string>

    function View(): Table
      reads this
    {
      Table(nextId, dirHandleMap, dirNameMap, dirIterMap, fileHandleMap, fileNameMap)
    }

    constructor ()
      ensures View() == EMPTY && Inv(View(), 0)
    {
      nextId := 0;
      dirHandleMap, dirNameMap, dirIterMap := map[], map[], map[];
      fileHandleMap, fileNameMap := map[], map[];
    }

    /** With one id per path, it does not matter in which order the map is searched. */
    method HasFile(path: string) returns (r: Option<nat>)
      requires Coherent(View())
      ensures r == Find(fileNameMap, path)
    {
      if k :| k in fileNameMap && fileNameMap[k] == path {
        r := Some(k);
      } else {
        r := None;
      }
    }

    method HasDir(path: string) returns (r: Option<nat>)
      requires Coherent(View())
      ensures r == Find(dirNameMap, path)
    {
      if k :| k in dirNameMap && dirNameMap[k] == path {
        r := Some(k);
      } else {
        r := None;
      }
    }

    method InsertFile(path: string, fl: Node) returns (id: nat)
      modifies this
      ensures View() == IdTables.InsertFile(old(View()), path, fl) && id == old(nextId)
    {
      id := nextId;
      nextId := if id == U64_MAX then 0 else id + 1;
      fileHandleMap := fileHandleMap[id := fl];
      fileNameMap := fileNameMap[id := path];
    }

    method InsertDir(path: string, dir: Node) returns (id: nat)
      modifies this
      ensures View() == IdTables.InsertDir(old(View()), path, dir) && id == old(nextId)
    {
      id := nextId;
      nextId := if id == U64_MAX then 0 else id + 1;
      dirHandleMap := dirHandleMap[id := dir];
      dirNameMap := dirNameMap[id := path];
      dirIterMap := dirIterMap[id := 0];
    }

    method OpenFile(fs: Option<Volume>, path: string) returns (r: Answer<nat>)
      requires Coherent(View())
      modifies this
      ensures Stepped(View(), Opened(r)) == IdTables.OpenFile(old(View()), fs, path)
    {
      var existing := HasFile(path);
      if existing.Some? {
        return Ok(existing.value);
      }
      if fs.None? {
        return Err(NotInitialized);
      }
      var newFl := fs.value.openFileAt(path);
      if newFl.Err? {
        return Err(newFl.error);
      }
      var id := InsertFile(path, newFl.value);
      r := Ok(id);
    }

    method OpenDir(fs: Option<Volume>, path: string) returns (r: Answer<nat>)
      requires Coherent(View())
      modifies this
      ensures Stepped(View(), Opened(r)) == IdTables.OpenDir(old(View()), fs, path)
    {
      var existing := HasDir(path);
      if existing.Some? {
        return Ok(existing.value);
      }
      if fs.None? {
        return Err(NotInitialized);
      }
      var newFl: Answer<Node>;
      if path == "/" || path == "" {
        newFl := Ok(fs.value.root);
      } else {
        newFl := fs.value.openDirAt(path);
        if newFl.Err? {
          return Err(newFl.error);
        }
      }
      var id := InsertDir(path, newFl.value);
      r := Ok(id);
    }

    method CloseFile(id: nat, flush: Answer<()>) returns (r: Answer<()>)
      modifies this
      ensures Stepped(View(), Closed(r)) == IdTables.CloseFile(old(View()), id, flush)
    {
      if id !in fileHandleMap {
        return Err(FileNotFound);
      }
      fileHandleMap := fileHandleMap - {id};
      if flush.Err? {
        return Err(flush.error);
      }
      fileNameMap := fileNameMap - {id};
      r := Ok(());
    }

    method CloseDir(id: nat) returns (r: Answer<()>)
      modifies this
      ensures Stepped(View(), Closed(r)) == IdTables.CloseDir(old(View()), id)
    {
      if id !in dirHandleMap {
        return Err(FileNotFound);
      }
      dirHandleMap := dirHandleMap - {id};
      dirNameMap := dirNameMap - {id};
      dirIterMap := dirIterMap - {id};
      r := Ok(());
    }

    method ReadNextDirent(vol: Volume, id: nat) returns (r: Answer<Option<Entry>>)
      modifies this
      ensures Stepped(View(), Dirent(r)) == IdTables.ReadNextDirent(old(View()), vol, id)
    {
      if id !in dirHandleMap {
        return Err(FileNotFound);
      }
      if id !in dirIterMap {
        return Err(Unknown);
      }
      var idx := dirIterMap[id];
      dirIterMap := dirIterMap[id := idx + 1];
      var entries := vol.listing(dirHandleMap[id]);
      if idx >= |entries| {
        return Ok(None);
      }
      match entries[idx]
      case Ok(e) => r := Ok(Some(e));
      case Err(e) => r := Err(e);
    }

    /** The path an id was opened under: in a coherent table an id names a file or a directory. */
    function GetPathForId(id: nat): (r: Answer<string>)
      reads this
      ensures r.Ok? <==> id in fileNameMap || id in dirNameMap
      ensures r.Err? ==> r.error == FileNotFound
      ensures id in fileNameMap ==> r == Ok(fileNameMap[id])
      ensures Coherent(View()) && id in dirNameMap ==> r == Ok(dirNameMap[id])
      ensures r == IdTables.GetPathForId(View(), id)
    {
      if id in fileNameMap then Ok(fileNameMap[id])
      else if id in dirNameMap then Ok(dirNameMap[id])
      else Err(FileNotFound)
    }
  }

  lemma InvIsCoherent(t: Table, issued: nat)
    requires Inv(t, issued)
    ensures Coherent(t)
  {
  }

  /** One operation, done by the methods of the store: the step of the table. */
  method Perform(store: IdStore, ghost issued: nat, op: Op) returns (resp: Response)
    requires Inv(store.View(), issued) && issued <= U64_MAX
    modifies store
    ensures Stepped(store.View(), resp) == Step(old(store.View()), op)
    ensures Inv(store.View(), issued + if Issues(old(store.View()), op) then 1 else 0)
  {
    hide Inv, Issues;
    StepKeepsInv(store.View(), issued, op);
    assert Coherent(store.View()) by {
      InvIsCoherent(store.View(), issued);
    }
    match op
    case OpenFileOp(fs, path) =>
      var r := store.OpenFile(fs, path);
      resp := Opened(r);
    case OpenDirOp(fs, path) =>
      var r := store.OpenDir(fs, path);
      resp := Opened(r);
    case CloseFileOp(id, flush) =>
      var r := store.CloseFile(id, flush);
      resp := Closed(r);
    case CloseDirOp(id) =>
      var r := store.CloseDir(id);
      resp := Closed(r);
    case ReadDirOp(vol, id) =>
      var r := store.ReadNextDirent(vol, id);
      resp := Dirent(r);
  }
}
