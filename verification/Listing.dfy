/** The resumable listing cache of a directory (`FatfsSysDir` of src/filesystem/fatfs_raw.rs). */
module Listing {
  import opened Wrappers

  /** Which attempts of `f_readdir` fail, by their number; a failed one does not advance. */
  type Faults = nat -> bool

  datatype Reading<+T> = Failed | Finished | Entry(entry: T)

  datatype DirState<T> = DirState(attempts: nat, pos: nat, children: seq<T>, finished: bool)

  /** The children are the entries in front of the cursor, all of them once finished. */
  ghost predicate Prefix<T>(s: DirState<T>, entries: seq<T>) {
    && s.pos <= |entries|
    && s.children == entries[..s.pos]
    && (s.finished ==> s.pos == |entries|)
  }

  datatype Loaded<T> = Loaded(state: DirState<T>, ok: bool)

  /** One call of `load_children`. */
  function Load<T>(s: DirState<T>, entries: seq<T>, faults: Faults): (r: Loaded<T>)
    requires s.pos <= |entries|
    decreases |entries| - s.pos
  {
    var next := s.(attempts := s.attempts + 1);
    if s.finished then Loaded(s, true)
    else if faults(s.attempts) then Loaded(next, false)
    else if s.pos == |entries| then Loaded(next.(finished := true), true)
    else Load(next.(pos := s.pos + 1, children := s.children + [entries[s.pos]]), entries, faults)
  }

  /** A call keeps the children a prefix, never shortens them, and completes them if it succeeds. */
  lemma {:induction false} LoadKeepsPrefix<T>(s: DirState<T>, entries: seq<T>, faults: Faults)
    requires Prefix(s, entries)
    ensures var r := Load(s, entries, faults);
            && Prefix(r.state, entries)
            && s.children <= r.state.children
            && (r.ok <==> r.state.finished)
            && (r.state.finished ==> r.state.children == entries)
    decreases |entries| - s.pos
  {
    if s.finished || faults(s.attempts) || s.pos == |entries| {
    } else {
      LoadKeepsPrefix(s.(attempts := s.attempts + 1, pos := s.pos + 1, children := s.children + [entries[s.pos]]),
                      entries, faults);
    }
  }

  /**
   A call makes one attempt for each entry that is missing and one that finds the end, and
   stops at the first that fails: it succeeds exactly if none of them fails, and has then
   made them all. Otherwise it has got one entry from each attempt before the failure.
   */
  lemma {:induction false} LoadStopsAtFault<T>(s: DirState<T>, entries: seq<T>, faults: Faults)
    requires s.pos <= |entries| && !s.finished
    ensures var r := Load(s, entries, faults);
            var all, made := |entries| - s.pos + 1, r.state.attempts - s.attempts;
            && 1 <= made <= all
            && (forall i :: s.attempts <= i < s.attempts + made - 1 ==> !faults(i))
            && (r.ok <==> !faults(s.attempts + made - 1))
            && (r.ok <==> forall i :: s.attempts <= i < s.attempts + all ==> !faults(i))
            && (r.ok ==> made == all)
            && r.state.pos == s.pos + made - 1
            && r.state.children == s.children + entries[s.pos..r.state.pos]
    decreases |entries| - s.pos
  {
    if faults(s.attempts) || s.pos == |entries| {
    } else {
      var next := s.(attempts := s.attempts + 1, pos := s.pos + 1, children := s.children + [entries[s.pos]]);
      LoadStopsAtFault(next, entries, faults);
      var r := Load(next, entries, faults);
      assert [entries[s.pos]] + entries[s.pos + 1..r.state.pos] == entries[s.pos..r.state.pos];
      assert s.children + [entries[s.pos]] + entries[s.pos + 1..r.state.pos]
          == s.children + ([entries[s.pos]] + entries[s.pos + 1..r.state.pos]);
    }
  }

  /** A listing that is finished is not read again. */
  lemma FinishedLoad<T>(s: DirState<T>, entries: seq<T>, faults: Faults)
    requires s.pos <= |entries| && s.finished
    ensures Load(s, entries, faults) == Loaded(s, true)
  {
  }

  function Loads<T>(s: DirState<T>, entries: seq<T>, faults: Faults, calls: nat): (r: DirState<T>)
    requires Prefix(s, entries)
    ensures Prefix(r, entries)
    decreases calls
  {
    if calls == 0 then s
    else
      LoadKeepsPrefix(s, entries, faults);
      Loads(Load(s, entries, faults).state, entries, faults, calls - 1)
  }

  /**
   Over any number of calls, failed or not, the children grow as a prefix of the directory;
   one call that succeeds makes them the directory for good.
   */
  lemma {:induction false} LoadsKeepPrefix<T>(s: DirState<T>, entries: seq<T>, faults: Faults, calls: nat)
    requires Prefix(s, entries)
    ensures var t := Loads(s, entries, faults, calls);
            && s.children <= t.children
            && t.children == entries[..|t.children|]
            && (s.finished ==> t == s)
            && (t.finished ==> t.children == entries)
    decreases calls
  {
    if calls == 0 {
    } else {
      LoadKeepsPrefix(s, entries, faults);
      LoadsKeepPrefix(Load(s, entries, faults).state, entries, faults, calls - 1);
    }
  }

  /** As long as no retry fails for good, the listing completes. */
  lemma {:induction false} HealthyLoadFinishes<T>(s: DirState<T>, entries: seq<T>, faults: Faults)
    requires Prefix(s, entries)
    requires forall i :: i >= s.attempts ==> !faults(i)
    ensures Load(s, entries, faults).ok && Load(s, entries, faults).state.children == entries
    decreases |entries| - s.pos
  {
    if s.finished || s.pos == |entries| {
    } else {
      HealthyLoadFinishes(s.(attempts := s.attempts + 1, pos := s.pos + 1, children := s.children + [entries[s.pos]]),
                          entries, faults);
    }
  }

  class FatfsSysDirIter<T> {
    const items: seq<T>
    var idx: nat

    constructor (items: seq<T>)
      ensures this.items == items && idx == 0
    {
      this.items, idx := items, 0;
    }

    method Next() returns (r: Option<T>)
      modifies this
      ensures idx == old(idx) + 1
      ensures r == if old(idx) < |items| then Some(items[old(idx)]) else None
    {
      r := if idx < |items| then Some(items[idx]) else None;
      idx := idx + 1;
    }
  }

  class FatfsSysDir<T> {
    /** The directory on the disk and its faults; the code sees them through `RawReadDir` only. */
    const entries: seq<T>
    const faults: Faults
    var attempts: nat
    var pos: nat
    var children: seq<T>
    var finishedReadingChildren: bool

    function View(): DirState<T>
      reads this
    {
      DirState(attempts, pos, children, finishedReadingChildren)
    }

    constructor FromInner(entries: seq<T>, faults: Faults)
      ensures this.entries == entries && this.faults == faults
      ensures View() == DirState(0, 0, [], false) && Prefix(View(), entries)
    {
      this.entries, this.faults := entries, faults;
      attempts, pos, children, finishedReadingChildren := 0, 0, [], false;
    }

    method RawReadDir() returns (r: Reading<T>)
      requires pos <= |entries|
      modifies this`attempts, this`pos
      ensures attempts == old(attempts) + 1
      ensures r.Failed? <==> faults(old(attempts))
      ensures r.Finished? ==> pos == old(pos) == |entries|
      ensures r.Failed? ==> pos == old(pos)
      ensures r.Entry? ==> old(pos) < |entries| && r.entry == entries[old(pos)] && pos == old(pos) + 1
    {
      attempts := attempts + 1;
      if faults(attempts - 1) {
        return Failed;
      }
      if pos == |entries| {
        return Finished;
      }
      pos := pos + 1;
      return Entry(entries[pos - 1]);
    }

    method LoadChildren() returns (ok: bool)
      requires Prefix(View(), entries)
      modifies this
      ensures Prefix(View(), entries)
      ensures Loaded(View(), ok) == Load(old(View()), entries, faults)
    {
      LoadKeepsPrefix(View(), entries, faults);
      if finishedReadingChildren {
        return true;
      }
      var ent := RawReadDir();
      while ent.Entry?
        invariant pos <= |entries|
        invariant ent.Finished? ==> pos == |entries|
        invariant Load(old(View()), entries, faults) ==
                  match ent
                  case Failed => Loaded(View(), false)
                  case Finished => Loaded(View().(finished := true), true)
                  case Entry(e) => Load(View().(children := children + [e]), entries, faults)
        invariant !finishedReadingChildren
        decreases |entries| - pos, if ent.Entry? then 1 else 0
      {
        children := children + [ent.entry];
        ent := RawReadDir();
      }
      if ent.Failed? {
        return false;
      }
      finishedReadingChildren := true;
      ok := true;
    }

    /** `iter` ignores whether the listing could be completed. */
    method Iter() returns (it: FatfsSysDirIter<T>)
      requires Prefix(View(), entries)
      modifies this
      ensures Prefix(View(), entries) && fresh(it)
      ensures it.items == children && it.idx == 0
      ensures View() == Load(old(View()), entries, faults).state
    {
      var _ := LoadChildren();
      it := new FatfsSysDirIter(children);
    }
  }

  /** Draining an iterator yields the cached list, in order, and then `None`. */
  method Drain<T>(it: FatfsSysDirIter<T>) returns (out: seq<T>)
    requires it.idx == 0
    modifies it
    ensures out == it.items && it.idx == |it.items| + 1
  {
    out := [];
    var next := it.Next();
    while next.Some?
      invariant it.idx == |out| + 1
      invariant next.Some? ==> |out| < |it.items| && next.value == it.items[|out|]
      invariant next.None? ==> |out| == |it.items|
      invariant |out| <= |it.items| && out == it.items[..|out|]
      decreases |it.items| - |out|, if next.Some? then 1 else 0
    {
      out := out + [next.value];
      next := it.Next();
    }
  }
}
