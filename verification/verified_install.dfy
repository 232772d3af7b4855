/** `extract_verified_zip` from the archive to the cache directory, when the cache cannot be used as it is. */
module VerifiedInstall {
  import opened Wrappers
  import opened Extraction
  import ExistingTree
  import opened Install

  /** A directory at one of the places involved: one that was found there, or the tree that was built. */
  datatype Cache = Existing(root: ExistingTree.Node) | Built(tree: map<string, seq<Byte>>)

  /** What is found at `target`, and how the file-system calls of the installation end. */
  datatype Disk = Disk(
    target: Option<ExistingTree.Node>, aside: Call, promote: Call, restore: Call, discard: Call, previousFirst: bool)
  {
    function Before(): Option<Cache> {
      match target case None => None case Some(root) => Some(Existing(root))
    }
  }

  function Destinations(list: Allowlist): (files: set<string>)
    ensures forall d :: d in files <==> exists i :: 0 <= i < |list| && list[i].1.name == d
  {
    set i | 0 <= i < |list| :: list[i].1.name
  }

  /** Everything that the archive, the allowlist and the pinned contents have to satisfy. */
  ghost predicate Extractable(
    list: Allowlist, members: seq<Member>, content: string -> seq<Byte>, limit: nat, names: Names,
    hash: seq<Byte> -> string)
  {
    && AllowlistOk(list, names)
    && ArchiveOk(members, ToMap(list), AllowedDirs(list), limit, names)
    && TotalSize(Contents(Files(members), content)) <= limit
    && DigestsOk(list, content, hash)
  }

  ghost predicate Verified(c: Option<Cache>, list: Allowlist, content: string -> seq<Byte>) {
    c.Some? && c.value.Built? && IsVerifiedTree(c.value.tree, list, content)
  }

  /** The old directory is still there unless the verified tree has taken its place, and nothing else is at `target`. */
  ghost predicate Kept(e: Entries<Cache>, before: Option<Cache>, list: Allowlist, content: string -> seq<Byte>) {
    && (before.Some? ==> e.target == before || e.previous == before || Verified(e.target, list, content))
    && (e.target.None? || e.target == before || Verified(e.target, list, content))
  }

  /** An existing directory may be replaced: only allowlisted files and their parents are in it. */
  ghost predicate Replaceable(disk: Disk, list: Allowlist) {
    disk.target.Some? ==> ExistingTree.TreeAllowed(disk.target.value, Destinations(list))
  }

  method CheckTarget(disk: Disk, list: Allowlist) returns (accepted: bool)
    ensures accepted <==> Replaceable(disk, list)
  {
    accepted := true;
    if disk.target.Some? { accepted := ExistingTree.CheckExistingTree(disk.target.value, Destinations(list)); }
  }

  /**
   * A normal return means that `target` is the verified tree and nothing else is left. However it ends, and wherever
   * it is stopped, the old directory is kept unless the verified tree has taken its place. It raises exactly when the
   * target holds something unexpected, the archive does not pass, or one of the calls fails.
   */
  method ExtractVerified(
    list: Allowlist, members: seq<Member>, content: string -> seq<Byte>, limit: nat, names: Names,
    hash: seq<Byte> -> string, disk: Disk)
    returns (raised: bool, entries: Entries<Cache>, ghost history: seq<Entries<Cache>>)
    requires IsDictionary(list)
    ensures !raised ==> Verified(entries.target, list, content) && entries.previous.None? && entries.ready.None?
    ensures forall e :: e in history ==> Kept(e, disk.Before(), list, content)
    ensures Kept(entries, disk.Before(), list, content)
    ensures raised <==>
      || !Replaceable(disk, list) || !Extractable(list, members, content, limit, names, hash)
      || (disk.target.Some? && !disk.aside.Succeeds?) || !disk.promote.Succeeds? || !disk.discard.Succeeds?
  {
    ghost var before := disk.Before();
    entries, history := Entries(disk.Before(), None, None), [];
    var accepted := CheckTarget(disk, list);
    if !accepted { return true, entries, history; }
    var built := BuildTree(list, members, content, limit, names, hash);
    if built.Err? { return true, entries, history; }
    var fresh_ := Built(built.value);
    var workspace := new Workspace(disk.Before(), fresh_);
    accepted := CheckTarget(disk, list);
    raised := workspace.Install(
      fresh_, !accepted, disk.aside, disk.promote, disk.restore, disk.discard, disk.previousFirst);
    entries, history := workspace.entries, workspace.history;
    forall e | Safe(e, before, fresh_) ensures Kept(e, before, list, content) {}
  }
}
