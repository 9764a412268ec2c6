/**
 `stat_path` looks a path up through the directories that happen to be open; for a
 fixed tree it finds what a lookup with none open finds.
 */
module StatPaths {
  import opened Wrappers
  import opened IdTables
  import opened Paths

  /** Size and attributes. */
  type Stat = (nat, nat)

  /** The first entry of that name; an error in front of it comes first. */
  function FindEntry(entries: seq<Answer<Entry>>, name: string): Answer<Stat> {
    if entries == [] then Err(FileNotFound)
    else
      match entries[0]
      case Err(e) => Err(e)
      case Ok(ent) =>
        if TrimEnd(ent.name) == name then Ok((ent.size, ent.attributes)) else FindEntry(entries[1..], name)
  }

  /** The entries in front of position `i` are no errors, and do not have the name. */
  predicate PassedOver(entries: seq<Answer<Entry>>, name: string, i: nat)
    requires i <= |entries|
  {
    forall j :: 0 <= j < i ==> entries[j].Ok? && TrimEnd(entries[j].value.name) != name
  }

  /** Entry `i` is the first of that name, behind no error. */
  predicate FirstNamed(entries: seq<Answer<Entry>>, name: string, i: nat) {
    i < |entries| && PassedOver(entries, name, i) && entries[i].Ok? && TrimEnd(entries[i].value.name) == name
  }

  /** Entry `i` is the first error, behind no entry of that name. */
  predicate FirstError(entries: seq<Answer<Entry>>, name: string, i: nat) {
    i < |entries| && PassedOver(entries, name, i) && entries[i].Err?
  }

  /** The answer is size and attributes of the first entry of that name, or the first error in front of it. */
  ghost predicate IsFound(entries: seq<Answer<Entry>>, name: string, r: Answer<Stat>) {
    && (r.Ok? <==> exists i: nat :: FirstNamed(entries, name, i))
    && (forall i: nat :: FirstNamed(entries, name, i) ==> r == Ok((entries[i].value.size, entries[i].value.attributes)))
    && (forall i: nat :: FirstError(entries, name, i) ==> r == Err(entries[i].error))
    && (PassedOver(entries, name, |entries|) <==> !(exists i: nat :: FirstNamed(entries, name, i))
                                                  && !(exists i: nat :: FirstError(entries, name, i)))
    && (PassedOver(entries, name, |entries|) ==> r == Err(FileNotFound))
  }

  /** Behind an entry that is passed over the positions are one on. */
  lemma PassedOverCons(first: Answer<Entry>, rest: seq<Answer<Entry>>, name: string, i: nat)
    requires first.Ok? && TrimEnd(first.value.name) != name && i <= |rest|
    ensures PassedOver([first] + rest, name, i + 1) <==> PassedOver(rest, name, i)
  {
    hide TrimEnd;
    var entries := [first] + rest;
    if PassedOver(entries, name, i + 1) {
      forall j | 0 <= j < i
        ensures rest[j].Ok? && TrimEnd(rest[j].value.name) != name
      {
        assert rest[j] == entries[j + 1];
      }
    }
  }

  lemma FirstCons(first: Answer<Entry>, rest: seq<Answer<Entry>>, name: string, i: nat)
    requires first.Ok? && TrimEnd(first.value.name) != name
    ensures FirstNamed([first] + rest, name, i) <==> i > 0 && FirstNamed(rest, name, i - 1)
    ensures FirstError([first] + rest, name, i) <==> i > 0 && FirstError(rest, name, i - 1)
  {
    hide TrimEnd, PassedOver;
    if 0 < i <= |rest| {
      PassedOverCons(first, rest, name, i - 1);
    }
  }

  lemma FoundFirst(entries: seq<Answer<Entry>>, name: string, k: nat, r: Answer<Stat>)
    requires FirstNamed(entries, name, k) || FirstError(entries, name, k)
    requires r == if FirstNamed(entries, name, k) then Ok((entries[k].value.size, entries[k].value.attributes))
                  else Err(entries[k].error)
    ensures IsFound(entries, name, r)
  {
    hide TrimEnd;
    forall i: nat
      ensures FirstNamed(entries, name, i) || FirstError(entries, name, i) ==> i == k
    {
    }
  }

  lemma NothingFound(entries: seq<Answer<Entry>>, name: string)
    requires PassedOver(entries, name, |entries|)
    ensures IsFound(entries, name, Err(FileNotFound))
  {
    hide TrimEnd;
    forall i: nat
      ensures !FirstNamed(entries, name, i) && !FirstError(entries, name, i)
    {
    }
  }

  lemma FoundBehind(rest: seq<Answer<Entry>>, name: string, k: nat)
    requires k <= |rest| && PassedOver(rest, name, k) && IsFound(rest, name, FindEntry(rest, name))
    requires k < |rest| ==> FirstNamed(rest, name, k) || FirstError(rest, name, k)
    ensures k == |rest| ==> FindEntry(rest, name) == Err(FileNotFound)
    ensures k < |rest| ==>
              FindEntry(rest, name)
              == if FirstNamed(rest, name, k) then Ok((rest[k].value.size, rest[k].value.attributes))
                 else Err(rest[k].error)
  {
    hide TrimEnd, PassedOver, FindEntry;
  }

  /** By positions: what the search returns, and that one of the three cases applies. */
  lemma {:induction false} FindEntryIs(entries: seq<Answer<Entry>>, name: string) returns (k: nat)
    ensures k <= |entries| && PassedOver(entries, name, k)
    ensures k < |entries| ==> FirstNamed(entries, name, k) || FirstError(entries, name, k)
    ensures IsFound(entries, name, FindEntry(entries, name))
    decreases |entries|
  {
    hide TrimEnd, IsFound;
    if entries == [] {
      k := 0;
      NothingFound(entries, name);
    } else if entries[0].Err? || TrimEnd(entries[0].value.name) == name {
      k := 0;
      FoundFirst(entries, name, 0, FindEntry(entries, name));
    } else {
      k := FindEntryIs(entries[1..], name);
      assert entries == [entries[0]] + entries[1..];
      PassedOverCons(entries[0], entries[1..], name, k);
      FirstCons(entries[0], entries[1..], name, k + 1);
      FoundBehind(entries[1..], name, k);
      k := k + 1;
      if k < |entries| {
        FoundFirst(entries, name, k, FindEntry(entries, name));
      } else {
        NothingFound(entries, name);
      }
    }
  }

  /** The entries of the parent: through an open handle if there is one. */
  ghost function ParentListing(t: Table, vol: Volume, mounted: bool, parent: Option<string>)
    : Answer<seq<Answer<Entry>>>
  {
    var id := if parent.Some? then Find(t.dirNames, parent.value) else None;
    if id.Some? then
      if id.value in t.dirHandles then Ok(vol.listing(t.dirHandles[id.value])) else Err(Unknown)
    else if !mounted then
      Err(NotInitialized)
    else if parent.Some? && parent.value != "" then
      match vol.openDirAt(parent.value)
      case Err(e) => Err(e)
      case Ok(node) => Ok(vol.listing(node))
    else
      Ok(vol.listing(vol.root))
  }

  ghost function StatPath(t: Table, vol: Volume, mounted: bool, path: string): Answer<Stat> {
    var split := SplitLast(Stripped(path));
    match ParentListing(t, vol, mounted, split.parent)
    case Err(e) => Err(e)
    case Ok(entries) => FindEntry(entries, split.name)
  }

  /** Each open handle is the directory its stored path names. */
  ghost predicate Denotes(t: Table, vol: Volume) {
    && t.dirHandles.Keys == t.dirNames.Keys
    && forall id :: id in t.dirHandles ==> ResolveDir(vol, t.dirNames[id]) == Ok(t.dirHandles[id])
  }

  /** The operations see `vol` or no file system at all. */
  ghost predicate OnVolume(ops: seq<Op>, vol: Volume) {
    forall i :: 0 <= i < |ops| ==> ops[i].OpenDirOp? && ops[i].fs.Some? ==> ops[i].fs.value == vol
  }

  lemma StepKeepsDenotes(t: Table, vol: Volume, op: Op)
    requires Denotes(t, vol) && OnVolume([op], vol)
    ensures Denotes(Step(t, op).table, vol)
  {
    assert [op][0] == op;
  }

  lemma {:induction false} RunKeepsDenotes(t: Table, vol: Volume, ops: seq<Op>)
    requires Denotes(t, vol) && OnVolume(ops, vol)
    ensures Denotes(Run(t, ops).table, vol)
    decreases |ops|
  {
    hide Step, Denotes;
    if ops == [] {
    } else {
      assert ops[0] == [ops[0]][0];
      StepKeepsDenotes(t, vol, ops[0]);
      forall i | 0 <= i < |ops[1..]| && ops[1..][i].OpenDirOp? && ops[1..][i].fs.Some?
        ensures ops[1..][i].fs.value == vol
      {
        assert ops[1..][i] == ops[i + 1];
      }
      RunKeepsDenotes(Step(t, ops[0]).table, vol, ops[1..]);
    }
  }

  /** Without "/" as a parent, open directories make no difference. */
  lemma LookupTransparent(t: Table, vol: Volume, path: string)
    requires Denotes(t, vol)
    requires !SlashedComponent(path) || Find(t.dirNames, "/").None?
    ensures StatPath(t, vol, true, path) == StatPath(EMPTY, vol, true, path)
  {
    ParentIsSlashIff(path);
  }

  /** What a lookup finds: size and attributes of the entry of that name in the directory of that path. */
  ghost predicate Finds(vol: Volume, path: string, r: Answer<Stat>) {
    var split := SplitLast(Stripped(path));
    if split.parent.None? || split.parent.value == "" then IsFound(vol.listing(vol.root), split.name, r)
    else
      match vol.openDirAt(split.parent.value)
      case Err(e) => r == Err(e)
      case Ok(node) => IsFound(vol.listing(node), split.name, r)
  }

  lemma LookupFinds(vol: Volume, path: string)
    ensures Finds(vol, path, StatPath(EMPTY, vol, true, path))
  {
    hide SplitLast, Stripped, FindEntry, IsFound;
    var split := SplitLast(Stripped(path));
    if split.parent.None? || split.parent.value == "" {
      var _ := FindEntryIs(vol.listing(vol.root), split.name);
    } else if vol.openDirAt(split.parent.value).Ok? {
      var _ := FindEntryIs(vol.listing(vol.openDirAt(split.parent.value).value), split.name);
    }
  }

  /**
   After any run on a fixed tree, a lookup finds what it would find with no directory
   open, unless the path is one component behind three or four slashes.
   */
  lemma StatPathTransparent(vol: Volume, ops: seq<Op>, path: string)
    requires OnVolume(ops, vol) && !SlashedComponent(path)
    ensures StatPath(Run(EMPTY, ops).table, vol, true, path) == StatPath(EMPTY, vol, true, path)
  {
    RunKeepsDenotes(EMPTY, vol, ops);
    LookupTransparent(Run(EMPTY, ops).table, vol, path);
  }

  /** After any run on a fixed tree a lookup finds just that, but for the paths excepted below. */
  lemma StatPathFinds(vol: Volume, ops: seq<Op>, path: string)
    requires OnVolume(ops, vol) && !SlashedComponent(path)
    ensures Finds(vol, path, StatPath(Run(EMPTY, ops).table, vol, true, path))
  {
    hide StatPath, Finds, SlashedComponent, OnVolume, Run;
    StatPathTransparent(vol, ops, path);
    LookupFinds(vol, path);
  }

  /** A parent that has a name and no handle is answered with an unknown error; no coherent table has one. */
  lemma StatPathOrphan(t: Table, vol: Volume, mounted: bool, path: string)
    requires var parent := SplitLast(Stripped(path)).parent;
             && parent.Some? && (exists id :: id in t.dirNames && t.dirNames[id] == parent.value)
             && forall id :: id in t.dirNames && t.dirNames[id] == parent.value ==> id !in t.dirHandles
    ensures StatPath(t, vol, mounted, path) == Err(Unknown) && !Coherent(t)
  {
    hide SplitLast, Stripped;
  }

  /** With no file system, a path is looked up only if its parent is open. */
  lemma StatPathUnmounted(t: Table, vol: Volume, path: string)
    requires Denotes(t, vol)
    ensures var split := SplitLast(Stripped(path));
            var r := StatPath(t, vol, false, path);
            if split.parent.Some? && exists id :: id in t.dirNames && t.dirNames[id] == split.parent.value
            then ResolveDir(vol, split.parent.value).Ok?
                 && IsFound(vol.listing(ResolveDir(vol, split.parent.value).value), split.name, r)
            else r == Err(NotInitialized)
  {
    hide SplitLast, Stripped, FindEntry, IsFound;
    var split := SplitLast(Stripped(path));
    if split.parent.Some? && Find(t.dirNames, split.parent.value).Some? {
      var _ := FindEntryIs(vol.listing(ResolveDir(vol, split.parent.value).value), split.name);
    }
  }

  lemma DoubleInFront(name: string)
    ensures Double("/" + "/" + name)
  {
    assert ("/" + "/" + name)[0] == '/' && ("/" + "/" + name)[1] == '/';
  }

  /** The paths excepted have three slashes in a row: without, the stripped path has no "//". */
  lemma SlashedHasTriple(path: string)
    requires SlashedComponent(path)
    ensures Triple(path)
  {
    ParentIsSlashIff(path);
    if !Triple(path) {
      StrippedHasNoDouble(path);
      DoubleInFront(SplitLast(Stripped(path)).name);
    }
  }

  /** In particular for every path without three slashes in a row a lookup depends on nothing that is open. */
  lemma PlainPathTransparent(vol: Volume, ops: seq<Op>, path: string)
    requires OnVolume(ops, vol) && !Triple(path)
    ensures StatPath(Run(EMPTY, ops).table, vol, true, path) == StatPath(EMPTY, vol, true, path)
  {
    if SlashedComponent(path) {
      SlashedHasTriple(path);
    } else {
      StatPathTransparent(vol, ops, path);
    }
  }

  /**
   For the paths excepted, an open "/" does make a difference wherever the file system
   does not open "/" as the root.
   */
  lemma SlashedComponentDepends(t: Table, vol: Volume, path: string)
    requires Denotes(t, vol) && SlashedComponent(path) && Find(t.dirNames, "/").Some?
    ensures var name := SplitLast(Stripped(path)).name;
            && StatPath(t, vol, true, path) == FindEntry(vol.listing(vol.root), name)
            && StatPath(EMPTY, vol, true, path)
               == match vol.openDirAt("/")
                  case Err(e) => Err(e)
                  case Ok(node) => FindEntry(vol.listing(node), name)
  {
    ParentIsSlashIff(path);
  }

  /**
   A file system that refuses to open "/" makes the exception sharp: with "/" open, a path
   the root has an entry for is found through the handle and not without it.
   */
  lemma TransparentIff(t: Table, vol: Volume, path: string)
    requires Denotes(t, vol) && Find(t.dirNames, "/").Some? && vol.openDirAt("/").Err?
    requires FindEntry(vol.listing(vol.root), SplitLast(Stripped(path)).name).Ok?
    ensures StatPath(t, vol, true, path) == StatPath(EMPTY, vol, true, path) <==> !SlashedComponent(path)
  {
    if SlashedComponent(path) {
      SlashedComponentDepends(t, vol, path);
    } else {
      LookupTransparent(t, vol, path);
    }
  }

  lemma SlashedPath(path: string, name: string)
    requires path == "///a" && name == "a"
    ensures SlashedComponent(path) && SplitLast(Stripped(path)) == Split(name, Some("/"))
  {
    hide SplitLast, Stripped, CollapseOnce, TrimEnd;
    var three, none: nat := 3, 0;
    var whole := Slashes(three) + name + Slashes(none);
    assert path == whole;
    SlashedComponentSplits(three, name, none);
    assert 3 <= three <= 4 && name != "" && Plain(name) && whole == Slashes(three) + name + Slashes(none);
  }

  lemma TrimmedName(name: string)
    requires name == "a"
    ensures TrimEnd(name) == name
  {
  }

  /** It happens: "///a" is found with "/" open, and not without. */
  lemma SlashedWitness(vol: Volume, path: string, size: nat, attributes: nat)
    requires path == "///a" && vol.openDirAt("/") == Err(FileNotFound)
    requires vol.listing(vol.root) == [Ok(Entry("a", true, size, attributes))]
    ensures StatPath(Run(EMPTY, [OpenDirOp(Some(vol), "/")]).table, vol, true, path) == Ok((size, attributes))
    ensures StatPath(EMPTY, vol, true, path) == Err(FileNotFound)
  {
    hide SplitLast, Stripped, SlashedComponent;
    var t := Step(EMPTY, OpenDirOp(Some(vol), "/")).table;
    assert [OpenDirOp(Some(vol), "/")][1..] == [];
    assert Run(EMPTY, [OpenDirOp(Some(vol), "/")]).table == t;
    assert [OpenDirOp(Some(vol), "/")][0].fs == Some(vol);
    StepKeepsDenotes(EMPTY, vol, OpenDirOp(Some(vol), "/"));
    assert 0 in t.dirNames && t.dirNames[0] == "/";
    SlashedPath(path, vol.listing(vol.root)[0].value.name);
    SlashedComponentDepends(t, vol, path);
    TrimmedName(vol.listing(vol.root)[0].value.name);
  }
}
