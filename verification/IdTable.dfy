/**
 The handle table of src/capi_helpers/idstore.rs: five maps and an id counter, as
 functions from table to table, and what every run of them keeps.
 */
module IdTables {
  import opened Wrappers

  /** What a call of the store returns. */
  type Answer<+T> = Result<T, Code>

  datatype Code = NotInitialized | FileNotFound | Unknown | Io(raw: nat)

  const U64_MAX: nat := 0xFFFF_FFFF_FFFF_FFFF

  /** A directory or file of the volume, whatever handle it has. */
  type Node = nat

  datatype Entry = Entry(name: string, isFile: bool, size: nat, attributes: nat)

  /** What the file system answers, with the tree as it is at the moment. */
  datatype Volume = Volume(
    root: Node,
    openDirAt: string -> Answer<Node>,
    openFileAt: string -> Answer<Node>,
    listing: Node -> seq<Answer<Entry>>)

  datatype Table = Table(
    nextId: nat,
    dirHandles: map<nat, Node>,
    dirNames: map<nat, string>,
    dirIters: map<nat, nat>,
    fileHandles: map<nat, Node>,
    fileNames: map<nat, string>)

  const EMPTY := Table(0, map[], map[], map[], map[], map[])

  // ---------- Single operations ----------

  /** Some id the name belongs to; the order of a hash map decides if there are several. */
  ghost function Find(names: map<nat, string>, path: string): (r: Option<nat>)
    ensures r.Some? ==> r.value in names && names[r.value] == path
    ensures r.None? ==> forall k :: k in names ==> names[k] != path
  {
    if k :| k in names && names[k] == path then Some(k) else None
  }

  function NextId(id: nat): nat {
    if id == U64_MAX then 0 else id + 1
  }

  function InsertFile(t: Table, path: string, node: Node): Table {
    t.(nextId := NextId(t.nextId),
       fileHandles := t.fileHandles[t.nextId := node],
       fileNames := t.fileNames[t.nextId := path])
  }

  function InsertDir(t: Table, path: string, node: Node): Table {
    t.(nextId := NextId(t.nextId),
       dirHandles := t.dirHandles[t.nextId := node],
       dirNames := t.dirNames[t.nextId := path],
       dirIters := t.dirIters[t.nextId := 0])
  }

  /** The directory a path names when it is opened: the root has two names of its own. */
  function ResolveDir(vol: Volume, path: string): Answer<Node> {
    if path == "/" || path == "" then Ok(vol.root) else vol.openDirAt(path)
  }

  datatype Response =
    | Opened(id: Answer<nat>)
    | Closed(done: Answer<()>)
    | Dirent(next: Answer<Option<Entry>>)

  datatype Stepped = Stepped(table: Table, response: Response)

  ghost function OpenFile(t: Table, fs: Option<Volume>, path: string): Stepped {
    match Find(t.fileNames, path)
    case Some(existing) => Stepped(t, Opened(Ok(existing)))
    case None =>
      match fs
      case None => Stepped(t, Opened(Err(NotInitialized)))
      case Some(vol) =>
        match vol.openFileAt(path)
        case Err(e) => Stepped(t, Opened(Err(e)))
        case Ok(node) => Stepped(InsertFile(t, path, node), Opened(Ok(t.nextId)))
  }

  ghost function OpenDir(t: Table, fs: Option<Volume>, path: string): Stepped {
    match Find(t.dirNames, path)
    case Some(existing) => Stepped(t, Opened(Ok(existing)))
    case None =>
      match fs
      case None => Stepped(t, Opened(Err(NotInitialized)))
      case Some(vol) =>
        match ResolveDir(vol, path)
        case Err(e) => Stepped(t, Opened(Err(e)))
        case Ok(node) => Stepped(InsertDir(t, path, node), Opened(Ok(t.nextId)))
  }

  /** Removes the handle first: when the flush fails, the name stays behind. */
  function CloseFile(t: Table, id: nat, flush: Answer<()>): Stepped {
    if id !in t.fileHandles then
      Stepped(t, Closed(Err(FileNotFound)))
    else
      var u := t.(fileHandles := t.fileHandles - {id});
      match flush
      case Err(e) => Stepped(u, Closed(Err(e)))
      case Ok(_) => Stepped(u.(fileNames := u.fileNames - {id}), Closed(Ok(())))
  }

  function CloseDir(t: Table, id: nat): Stepped {
    if id !in t.dirHandles then
      Stepped(t, Closed(Err(FileNotFound)))
    else
      Stepped(t.(dirHandles := t.dirHandles - {id}, dirNames := t.dirNames - {id}, dirIters := t.dirIters - {id}),
              Closed(Ok(())))
  }

  /** What the enumeration of `entries` yields at position `k`. */
  function Nth(entries: seq<Answer<Entry>>, k: nat): Answer<Option<Entry>> {
    if k >= |entries| then Ok(None)
    else
      match entries[k]
      case Ok(e) => Ok(Some(e))
      case Err(e) => Err(e)
  }

  function ReadNextDirent(t: Table, vol: Volume, id: nat): Stepped {
    if id !in t.dirHandles then
      Stepped(t, Dirent(Err(FileNotFound)))
    else if id !in t.dirIters then
      Stepped(t, Dirent(Err(Unknown)))
    else
      Stepped(t.(dirIters := t.dirIters[id := t.dirIters[id] + 1]),
              Dirent(Nth(vol.listing(t.dirHandles[id]), t.dirIters[id])))
  }

  /** The path an id was opened under, a file's before a directory's. */
  function GetPathForId(t: Table, id: nat): Answer<string> {
    if id in t.fileNames then Ok(t.fileNames[id])
    else if id in t.dirNames then Ok(t.dirNames[id])
    else Err(FileNotFound)
  }

  /** An operation, with the file system it finds; the tree may differ from one to the next. */
  datatype Op =
    | OpenFileOp(fs: Option<Volume>, path: string)
    | OpenDirOp(fs: Option<Volume>, path: string)
    | CloseFileOp(id: nat, flush: Answer<()>)
    | CloseDirOp(id: nat)
    | ReadDirOp(vol: Volume, id: nat)

  ghost function Step(t: Table, op: Op): Stepped {
    match op
    case OpenFileOp(fs, path) => OpenFile(t, fs, path)
    case OpenDirOp(fs, path) => OpenDir(t, fs, path)
    case CloseFileOp(id, flush) => CloseFile(t, id, flush)
    case CloseDirOp(id) => CloseDir(t, id)
    case ReadDirOp(vol, id) => ReadNextDirent(t, vol, id)
  }

  datatype Ran = Ran(table: Table, responses: seq<Response>)

  ghost function Run(t: Table, ops: seq<Op>): (r: Ran)
    ensures |r.responses| == |ops|
    decreases |ops|
  {
    if ops == [] then Ran(t, [])
    else
      var first := Step(t, ops[0]);
      var rest := Run(first.table, ops[1..]);
      rest.(responses := [first.response] + rest.responses)
  }

  // ---------- The invariant ----------

  ghost predicate Injective(names: map<nat, string>) {
    forall i, j :: i in names && j in names && names[i] == names[j] ==> i == j
  }

  /** The maps agree with each other, and no path has two ids. */
  ghost predicate Coherent(t: Table) {
    && t.dirHandles.Keys == t.dirNames.Keys == t.dirIters.Keys
    && t.fileHandles.Keys <= t.fileNames.Keys
    && t.fileNames.Keys !! t.dirNames.Keys
    && Injective(t.fileNames)
    && Injective(t.dirNames)
  }

  /** `issued` ids have been given out, fewer than there are, and all live ones are among them. */
  ghost predicate Inv(t: Table, issued: nat) {
    && Coherent(t)
    && issued <= U64_MAX + 1
    && t.nextId == (if issued == U64_MAX + 1 then 0 else issued)
    && (forall k :: k in t.fileNames ==> k < issued)
    && (forall k :: k in t.dirNames ==> k < issued)
  }

  /** The operation gave out a new id. */
  ghost predicate Issues(t: Table, op: Op) {
    match op
    case OpenFileOp(fs, path) => Find(t.fileNames, path).None? && fs.Some? && fs.value.openFileAt(path).Ok?
    case OpenDirOp(fs, path) => Find(t.dirNames, path).None? && fs.Some? && ResolveDir(fs.value, path).Ok?
    case _ => false
  }

  /** A close that reported the flush had failed. */
  ghost predicate LosesHandle(t: Table, op: Op) {
    op.CloseFileOp? && op.id in t.fileHandles && op.flush.Err?
  }

  /** The names whose handle is gone. */
  function Stale(t: Table): set<nat> {
    t.fileNames.Keys - t.fileHandles.Keys
  }

  lemma InsertFileKeepsInv(t: Table, issued: nat, path: string, node: Node)
    requires Inv(t, issued) && issued <= U64_MAX && Find(t.fileNames, path).None?
    ensures Inv(InsertFile(t, path, node), issued + 1)
    ensures Stale(InsertFile(t, path, node)) == Stale(t)
  {
    var u := InsertFile(t, path, node);
    assert Injective(u.fileNames);
    assert u.fileNames.Keys == t.fileNames.Keys + {t.nextId} && u.fileHandles.Keys == t.fileHandles.Keys + {t.nextId};
    assert issued !in t.fileNames && issued !in t.dirNames;
  }

  lemma InsertDirKeepsInv(t: Table, issued: nat, path: string, node: Node)
    requires Inv(t, issued) && issued <= U64_MAX && Find(t.dirNames, path).None?
    ensures Inv(InsertDir(t, path, node), issued + 1)
    ensures Stale(InsertDir(t, path, node)) == Stale(t)
  {
    var u := InsertDir(t, path, node);
    assert issued !in t.fileNames && issued !in t.dirNames;
    assert Injective(u.dirNames);
  }

  lemma CloseFileKeepsInv(t: Table, issued: nat, id: nat, flush: Answer<()>)
    requires Inv(t, issued)
    ensures var u := CloseFile(t, id, flush).table;
            && Inv(u, issued)
            && Stale(u) == Stale(t) + if id in t.fileHandles && flush.Err? then {id} else {}
  {
    hide NextId;
    var u := CloseFile(t, id, flush).table;
    assert u.fileNames.Keys <= t.fileNames.Keys;
    assert Injective(u.fileNames);
  }

  lemma CloseDirKeepsInv(t: Table, issued: nat, id: nat)
    requires Inv(t, issued)
    ensures Inv(CloseDir(t, id).table, issued)
  {
    var u := CloseDir(t, id).table;
    assert Injective(u.dirNames);
    assert u.dirNames.Keys <= t.dirNames.Keys;
    assert u.dirHandles.Keys == u.dirNames.Keys == u.dirIters.Keys;
  }

  lemma ReadNextKeepsInv(t: Table, issued: nat, vol: Volume, id: nat)
    requires Inv(t, issued)
    ensures Inv(ReadNextDirent(t, vol, id).table, issued)
  {
    var u := ReadNextDirent(t, vol, id).table;
    assert u.dirIters.Keys == t.dirIters.Keys;
  }

  /** Every operation keeps the table coherent, and a new id is one never seen before. */
  lemma StepKeepsInv(t: Table, issued: nat, op: Op)
    requires Inv(t, issued) && issued <= U64_MAX
    ensures var r := Step(t, op);
            && Inv(r.table, issued + if Issues(t, op) then 1 else 0)
            && (Issues(t, op) ==> r.response == Opened(Ok(issued)) && issued !in t.fileNames && issued !in t.dirNames)
            && Stale(r.table) == Stale(t) + if LosesHandle(t, op) then {op.id} else {}
  {
    hide Coherent, Injective, InsertFile, InsertDir;
    match op
    case CloseFileOp(id, flush) => CloseFileKeepsInv(t, issued, id, flush);
    case CloseDirOp(id) => CloseDirKeepsInv(t, issued, id);
    case ReadDirOp(vol, id) => ReadNextKeepsInv(t, issued, vol, id);
    case OpenFileOp(fs, path) =>
      if Issues(t, op) {
        InsertFileKeepsInv(t, issued, path, fs.value.openFileAt(path).value);
      }
    case OpenDirOp(fs, path) =>
      if Issues(t, op) {
        InsertDirKeepsInv(t, issued, path, ResolveDir(fs.value, path).value);
      }
  }
}
