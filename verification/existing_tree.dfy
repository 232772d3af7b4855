/** `_check_existing_tree`: draining a worklist of directories before an installed tree may be trusted or replaced. */
module ExistingTree {
  import opened Wrappers
  import Extraction
  import Paths

  /** A directory entry as `lstat` shows it; a directory lists its entries in some order. */
  datatype Node = File(regular: bool) | Dir(entries: seq<Named>) | ReparsePoint

  datatype Named = Named(name: string, node: Node)

  type Entries = seq<Named>

  function ChildPath(path: string, name: string): string {
    if path == "" then name else path + "/" + name
  }

  /** The entry may be there: a needed directory, or an allowlisted regular file. */
  ghost predicate EntryOk(n: Node, path: string, files: set<string>, dirs: set<string>) {
    match n
    case ReparsePoint => false
    case Dir(_) => path in dirs
    case File(regular) => path in files && regular
  }

  /** Everything below a directory may be there. */
  ghost predicate AllOk(entries: Entries, path: string, files: set<string>, dirs: set<string>) {
    forall i :: 0 <= i < |entries| ==>
      && EntryOk(entries[i].node, ChildPath(path, entries[i].name), files, dirs)
      && (entries[i].node.Dir? ==> AllOk(entries[i].node.entries, ChildPath(path, entries[i].name), files, dirs))
  }

  // ----- what the recursion says about every reachable entry -----

  /** Following the names from the directory leads to `n`. */
  ghost predicate Leads(entries: Entries, names: seq<string>, n: Node)
    decreases |names|, 1
  {
    names != [] && exists i :: 0 <= i < |entries| && LeadsVia(entries[i], names, n)
  }

  ghost predicate LeadsVia(entry: Named, names: seq<string>, n: Node)
    requires names != []
    decreases |names|, 0
  {
    && entry.name == names[0]
    && if |names| == 1 then entry.node == n else entry.node.Dir? && Leads(entry.node.entries, names[1..], n)
  }

  ghost function PathOf(path: string, names: seq<string>): string
    decreases |names|
  {
    if names == [] then path else PathOf(ChildPath(path, names[0]), names[1..])
  }

  lemma {:induction false} OkReaches(
      entries: Entries, path: string, names: seq<string>, n: Node, files: set<string>, dirs: set<string>)
    requires AllOk(entries, path, files, dirs) && Leads(entries, names, n)
    ensures EntryOk(n, PathOf(path, names), files, dirs)
    decreases |names|
  {
    var i :| 0 <= i < |entries| && LeadsVia(entries[i], names, n);
    if |names| == 1 {
      assert PathOf(path, names) == ChildPath(path, names[0]);
    } else {
      OkReaches(entries[i].node.entries, ChildPath(path, names[0]), names[1..], n, files, dirs);
    }
  }

  /** Where the recursion objects, some reachable entry is at fault. */
  lemma {:induction false} FaultIsReachable(entries: Entries, path: string, files: set<string>, dirs: set<string>)
    returns (names: seq<string>, n: Node)
    requires !AllOk(entries, path, files, dirs)
    ensures Leads(entries, names, n) && !EntryOk(n, PathOf(path, names), files, dirs)
    decreases entries
  {
    var i :| 0 <= i < |entries| && !(
      && EntryOk(entries[i].node, ChildPath(path, entries[i].name), files, dirs)
      && (entries[i].node.Dir? ==> AllOk(entries[i].node.entries, ChildPath(path, entries[i].name), files, dirs)));
    var Named(name, child) := entries[i];
    if !EntryOk(child, ChildPath(path, name), files, dirs) {
      names, n := [name], child;
      assert LeadsVia(entries[i], names, n);
      assert PathOf(path, names) == PathOf(ChildPath(path, name), []);
    } else {
      var rest;
      rest, n := FaultIsReachable(child.entries, ChildPath(path, name), files, dirs);
      names := [name] + rest;
      assert names[1..] == rest;
      assert LeadsVia(entries[i], names, n);
    }
  }

  // ----- the worklist -----

  type Pending = seq<(string, Entries)>

  ghost predicate PendingOk(pending: Pending, files: set<string>, dirs: set<string>) {
    forall k :: 0 <= k < |pending| ==> AllOk(pending[k].1, pending[k].0, files, dirs)
  }

  /** The number of entries at and below a listing. */
  ghost function Size(entries: Entries): nat {
    if entries == [] then 0
    else 1 + (if entries[0].node.Dir? then Size(entries[0].node.entries) else 0) + Size(entries[1..])
  }

  ghost function Weight(pending: Pending): nat {
    if pending == [] then 0 else Weight(pending[..|pending| - 1]) + 1 + Size(pending[|pending| - 1].1)
  }

  /** One directory: the subdirectories to look at next, or `None` for an entry that may not be there. */
  method Inspect(entries: Entries, path: string, files: set<string>, dirs: set<string>, pending: Pending)
    returns (next: Option<Pending>)
    ensures next.None? ==> !AllOk(entries, path, files, dirs)
    ensures next.Some? ==>
      (PendingOk(next.value, files, dirs) <==> PendingOk(pending, files, dirs) && AllOk(entries, path, files, dirs))
    ensures next.Some? ==> Weight(next.value) <= Weight(pending) + Size(entries)
  {
    var more := pending;
    assert entries[0..] == entries;
    for i := 0 to |entries|
      invariant PendingOk(more, files, dirs) && AllOk(entries[i..], path, files, dirs)
           <==> PendingOk(pending, files, dirs) && AllOk(entries, path, files, dirs)
      invariant Weight(more) + Size(entries[i..]) <= Weight(pending) + Size(entries)
    {
      var Named(name, child) := entries[i];
      assert entries[i..][1..] == entries[i + 1..];
      FirstEntry(entries[i..], path, files, dirs);
      match child {
        case ReparsePoint => FaultyEntry(entries, i, path, files, dirs); return None;
        case Dir(below) =>
          if ChildPath(path, name) !in dirs { FaultyEntry(entries, i, path, files, dirs); return None; }
          PushedOk(more, (ChildPath(path, name), below), files, dirs);
          more := more + [(ChildPath(path, name), below)];
        case File(regular) =>
          if ChildPath(path, name) !in files || !regular { FaultyEntry(entries, i, path, files, dirs); return None; }
      }
    }
    return Some(more);
  }

  lemma {:induction false} FirstEntry(entries: Entries, path: string, files: set<string>, dirs: set<string>)
    requires entries != []
    ensures AllOk(entries, path, files, dirs) <==>
      && EntryOk(entries[0].node, ChildPath(path, entries[0].name), files, dirs)
      && (entries[0].node.Dir? ==> AllOk(entries[0].node.entries, ChildPath(path, entries[0].name), files, dirs))
      && AllOk(entries[1..], path, files, dirs)
  {
    var rest := entries[1..];
    assert forall i :: 0 <= i < |rest| ==> rest[i] == entries[i + 1];
    if AllOk(rest, path, files, dirs) {
      assert forall i :: 0 < i < |entries| ==> entries[i] == rest[i - 1];
    }
  }

  lemma {:induction false} FaultyEntry(entries: Entries, i: nat, path: string, files: set<string>, dirs: set<string>)
    requires i < |entries| && !EntryOk(entries[i].node, ChildPath(path, entries[i].name), files, dirs)
    ensures !AllOk(entries, path, files, dirs)
  {}

  lemma {:induction false} PushedOk(pending: Pending, d: (string, Entries), files: set<string>, dirs: set<string>)
    ensures PendingOk(pending + [d], files, dirs) <==> PendingOk(pending, files, dirs) && AllOk(d.1, d.0, files, dirs)
    ensures Weight(pending + [d]) == Weight(pending) + 1 + Size(d.1)
  {
    assert (pending + [d])[..|pending|] == pending;
    assert (pending + [d])[|pending|] == d && forall k :: 0 <= k < |pending| ==> (pending + [d])[k] == pending[k];
  }

  lemma {:induction false} OnlyListing(pending: Pending, entries: Entries, files: set<string>, dirs: set<string>)
    requires pending == [("", entries)]
    ensures PendingOk(pending, files, dirs) <==> AllOk(entries, "", files, dirs)
  {
    PushedOk([], ("", entries), files, dirs);
    assert [] + [("", entries)] == pending;
  }

  lemma {:induction false} Popped(
      pending: Pending, rest: Pending, top: (string, Entries), files: set<string>, dirs: set<string>)
    requires pending == rest + [top]
    ensures PendingOk(pending, files, dirs) <==> PendingOk(rest, files, dirs) && AllOk(top.1, top.0, files, dirs)
    ensures Weight(pending) == Weight(rest) + 1 + Size(top.1)
  {
    PushedOk(rest, top, files, dirs);
  }

  /** The loop over the worklist: last in, first out. */
  method Drain(entries: Entries, files: set<string>, dirs: set<string>) returns (accepted: bool)
    ensures accepted <==> AllOk(entries, "", files, dirs)
  {
    var pending: Pending := [("", entries)];
    OnlyListing(pending, entries, files, dirs);
    while pending != []
      invariant PendingOk(pending, files, dirs) <==> AllOk(entries, "", files, dirs)
      decreases Weight(pending)
    {
      var rest, top := pending[..|pending| - 1], pending[|pending| - 1];
      Popped(pending, rest, top, files, dirs);
      var next := Inspect(top.1, top.0, files, dirs, rest);
      if next.None? { return false; }
      pending := next.value;
    }
    return true;
  }

  /** The recursion, read as a statement about every entry that can be reached. */
  ghost predicate EveryEntryOk(entries: Entries, files: set<string>, dirs: set<string>) {
    forall names, n :: Leads(entries, names, n) ==> EntryOk(n, PathOf("", names), files, dirs)
  }

  lemma {:induction false} AllOkMeansEveryEntry(entries: Entries, files: set<string>, dirs: set<string>)
    ensures AllOk(entries, "", files, dirs) <==> EveryEntryOk(entries, files, dirs)
  {
    if AllOk(entries, "", files, dirs) {
      forall names, n | Leads(entries, names, n) ensures EntryOk(n, PathOf("", names), files, dirs) {
        OkReaches(entries, "", names, n, files, dirs);
      }
    } else {
      var names, n := FaultIsReachable(entries, "", files, dirs);
    }
  }

  /** The directories that the allowlisted files need. */
  function ParentDirs(files: set<string>): set<string> {
    set f, a | f in files && a in Extraction.Ancestors(f) :: a
  }

  lemma {:induction false} ParentDirsPrecede(files: set<string>, a: string)
    ensures a in ParentDirs(files) <==> a != "" && exists f :: f in files && a + "/" <= f
  {
    forall f | f in files ensures a in Extraction.Ancestors(f) <==> a != "" && a + "/" <= f {
      Extraction.AncestorPrecedes(f, a);
    }
  }

  /** Names lead to the path that joins them. */
  lemma {:induction false} PathJoins(path: string, names: seq<string>)
    requires names != [] && forall i :: 0 <= i < |names| ==> names[i] != ""
    ensures PathOf(path, names) == (if path == "" then "" else path + "/") + Paths.Join(names, '/')
    decreases |names|
  {
    var child := ChildPath(path, names[0]);
    if |names| == 1 {
      assert PathOf(child, names[1..]) == child;
    } else {
      PathJoins(child, names[1..]);
    }
  }

  /** An entry at a path: an allowlisted regular file, or a directory on the way to one. */
  ghost predicate Allowed(n: Node, path: string, files: set<string>) {
    match n
    case ReparsePoint => false
    case Dir(_) => path != "" && exists f :: f in files && path + "/" <= f
    case File(regular) => path in files && regular
  }

  /** A directory in which every reachable entry is allowlisted, or a parent of something that is. */
  ghost predicate TreeAllowed(root: Node, files: set<string>) {
    root.Dir? && forall names, n :: Leads(root.entries, names, n) ==> Allowed(n, PathOf("", names), files)
  }

  lemma {:induction false} EntryAllowed(n: Node, path: string, files: set<string>)
    ensures (EntryOk(n, path, files, ParentDirs(files))) == Allowed(n, path, files)
  {
    ParentDirsPrecede(files, path);
  }

  lemma {:induction false} AllowedByDirs(root: Node, files: set<string>)
    requires root.Dir?
    ensures (EveryEntryOk(root.entries, files, ParentDirs(files))) == TreeAllowed(root, files)
  {
    var dirs := ParentDirs(files);
    forall n, path ensures (EntryOk(n, path, files, dirs)) == Allowed(n, path, files) {
      EntryAllowed(n, path, files);
    }
    if EveryEntryOk(root.entries, files, dirs) {
      forall names, n | Leads(root.entries, names, n) ensures Allowed(n, PathOf("", names), files) {
        assert EntryOk(n, PathOf("", names), files, dirs);
      }
    }
  }

  /**
   * Accepts a tree exactly when every entry that can be reached in it is a parent directory of an allowlisted file or
   * such a file, regular, and no reparse point is anywhere.
   */
  method CheckExistingTree(root: Node, files: set<string>) returns (accepted: bool)
    ensures accepted <==> TreeAllowed(root, files)
  {
    if !root.Dir? { return false; }
    var dirs := ParentDirs(files);
    AllOkMeansEveryEntry(root.entries, files, dirs);
    AllowedByDirs(root, files);
    accepted := Drain(root.entries, files, dirs);
  }
}
