/** Bounded, digest-checked extraction of an allowlisted archive. */
module Extraction {
  import opened Wrappers
  import Paths

  type Byte = n: nat | n < 256

  datatype IntegrityError =
    | EmptyAllowlist | UnsafeName | NotPinned | DuplicateDestination | OverlappingDestinations | DuplicateMember
    | UnexpectedMember
    | TooLarge | SizeMismatch | MissingMembers | DigestMismatch

  // ----- bounded copying -----

  const CHUNK: nat := 65536

  /** A stream whose reads may be short, but come back empty only at the end. */
  class ByteSource {
    const data: seq<Byte>
    var pos: nat

    ghost predicate Valid() reads this { pos <= |data| }

    constructor (data: seq<Byte>)
      ensures Valid() && this.data == data && pos == 0
    {
      this.data := data;
      pos := 0;
    }

    method Read(n: nat) returns (chunk: seq<Byte>)
      requires Valid() && n >= 1
      modifies this
      ensures Valid() && old(pos) <= pos && chunk == data[old(pos)..pos]
      ensures |chunk| <= n && (chunk == [] <==> old(pos) == |data|)
    {
      if pos == |data| { return []; }
      var k: nat :| 1 <= k <= n && pos + k <= |data|;
      chunk := data[pos..pos + k];
      pos := pos + k;
    }
  }

  class ByteSink {
    var written: seq<Byte>

    constructor ()
      ensures written == []
    {
      written := [];
    }

    method Write(chunk: seq<Byte>)
      modifies this
      ensures written == old(written) + chunk
    {
      written := written + chunk;
    }
  }

  datatype Copied = Copied(digest: string, size: nat)

  /**
   * `_copy_hash`: succeeds exactly on streams within the limit, having copied and hashed all of them; otherwise what
   * it wrote is a part of the stream that is still within the limit.
   */
  method CopyHash(source: ByteSource, target: ByteSink, limit: nat, hash: seq<Byte> -> string)
    returns (r: Result<Copied, IntegrityError>)
    requires source.Valid()
    modifies source, target
    ensures source.Valid()
    ensures r.Ok? <==> |old(source.data[source.pos..])| <= limit
    ensures r.Ok? ==>
      && r.value == Copied(hash(old(source.data[source.pos..])), |old(source.data[source.pos..])|)
      && target.written == old(target.written) + old(source.data[source.pos..])
    ensures r.Err? ==> r.error == TooLarge
    ensures r.Err? ==>
      exists n :: 0 <= n <= limit && n <= |old(source.data[source.pos..])|
                     && target.written == old(target.written) + old(source.data[source.pos..])[..n]
  {
    ghost var rest := source.data[source.pos..];
    var fed: seq<Byte>, size := [], 0;
    var more := true;
    while more
      invariant source.Valid() && 0 <= size <= limit && size <= |rest|
      invariant source.data[source.pos..] == rest[size..]
      invariant fed == rest[..size] && target.written == old(target.written) + fed
      invariant !more ==> size == |rest|
      decreases more, |rest| - size
    {
      var asked := if CHUNK <= limit - size + 1 then CHUNK else limit - size + 1;
      var chunk := source.Read(asked);
      if chunk == [] {
        more := false;
      } else {
        assert rest[..size + |chunk|] == rest[..size] + chunk;
        if size + |chunk| > limit {
          assert rest[..size] == fed;
          return Err(TooLarge);
        }
        size := size + |chunk|;
        fed := fed + chunk;
        target.Write(chunk);
      }
    }
    assert fed == rest;
    return Ok(Copied(hash(fed), size));
  }

  // ----- names -----

  /** The parts between the slashes. */
  function Parts(name: string): (parts: seq<string>)
    ensures |parts| >= 1 && Paths.Join(parts, '/') == name
    ensures forall i :: 0 <= i < |parts| ==> '/' !in parts[i]
  {
    Paths.JoinSplit(name, '/');
    Paths.Split(name, '/')
  }

  const FORBIDDEN: string := "\\:<>\"|?*"
  const RESERVED: set<string> := {"CON", "PRN", "AUX", "NUL"}

  /** What stands before the first dot. */
  ghost predicate IsStem(part: string, stem: string) {
    '.' !in stem && (part == stem || stem + "." <= part)
  }

  /** A device name of some systems. */
  ghost predicate IsDevice(stem: string) {
    || stem in {"CON", "PRN", "AUX", "NUL"}
    || exists digit :: digit in "123456789\U{B9}\U{B2}\U{B3}" && (stem == "COM" + [digit] || stem == "LPT" + [digit])
  }

  ghost predicate SafePart(part: string, upper: string -> string) {
    && part !in {"", ".", ".."} && part[|part| - 1] !in {' ', '.'}
    && (forall stem :: IsStem(part, stem) ==> !IsDevice(upper(stem)))
  }

  /** Visible, portable characters, and no part that a file system reads specially or that names a device. */
  ghost predicate SafeName(name: string, upper: string -> string) {
    && name != ""
    && (forall i :: 0 <= i < |name| ==> name[i] as int >= 32 && name[i] !in FORBIDDEN)
    && (forall i :: 0 <= i < |Parts(name)| ==> SafePart(Parts(name)[i], upper))
  }

  lemma {:induction false} FirstSegmentIsStem(part: string, stem: string)
    ensures (IsStem(part, stem)) == (stem == Paths.Split(part)[0])
  {
    var segments := Paths.Split(part);
    Paths.JoinSplit(part);
    assert IsStem(part, segments[0]);
    if IsStem(part, stem) {
      if part == stem {
        Paths.SplitDotFree(stem);
      } else {
        var rest := part[|stem| + 1..];
        assert part == stem + "." + rest;
        Paths.SplitConcat(stem, rest);
        Paths.SplitDotFree(stem);
      }
    }
  }

  /** The second loop of `_relative_name`, for one part. */
  method ReservedPart(part: string, upper: string -> string) returns (reserved: bool)
    ensures reserved <==> exists stem :: IsStem(part, stem) && IsDevice(upper(stem))
  {
    var first := Paths.Split(part)[0];
    var stem := upper(first);
    FirstSegmentIsStem(part, first);
    forall other | IsStem(part, other) ensures other == first { FirstSegmentIsStem(part, other); }
    if stem in RESERVED { return true; }
    reserved := |stem| == 4 && stem[..3] in {"COM", "LPT"} && stem[3] in "123456789\U{B9}\U{B2}\U{B3}";
    if reserved { assert stem == stem[..3] + [stem[3]]; }
  }

  /** `_relative_name` */
  method RelativeName(name: string, upper: string -> string) returns (safe: bool)
    ensures safe <==> SafeName(name, upper)
  {
    if name == "" { return false; }
    if exists i :: 0 <= i < |name| && (name[i] as int < 32 || name[i] in FORBIDDEN) { return false; }
    var parts := Parts(name);
    for i := 0 to |parts|
      invariant forall j :: 0 <= j < i ==> parts[j] !in {"", ".", ".."} && parts[j][|parts[j]| - 1] !in {' ', '.'}
    {
      var part := parts[i];
      if part in {"", ".", ".."} || part[|part| - 1] in {' ', '.'} { return false; }
    }
    for i := 0 to |parts|
      invariant forall j :: 0 <= j < i ==> SafePart(parts[j], upper)
    {
      var reserved := ReservedPart(parts[i], upper);
      if reserved { return false; }
    }
    return true;
  }

  /** What a file system makes of a relative path: `.` stays, `..` climbs. */
  function Walk(at: seq<string>, parts: seq<string>): seq<string>
    decreases |parts|
  {
    if parts == [] then at
    else if parts[0] in {"", "."} then Walk(at, parts[1..])
    else if parts[0] == ".." then Walk(if at == [] then [] else at[..|at| - 1], parts[1..])
    else Walk(at + [parts[0]], parts[1..])
  }

  lemma {:induction false} PlainPartsWalkDown(at: seq<string>, parts: seq<string>)
    requires forall i :: 0 <= i < |parts| ==> parts[i] !in {"", ".", ".."}
    ensures Walk(at, parts) == at + parts
    decreases |parts|
  {
    if parts != [] {
      PlainPartsWalkDown(at + [parts[0]], parts[1..]);
      assert at + [parts[0]] + parts[1..] == at + parts;
    }
  }

  /** A safe name always leads to a place strictly below the directory it is joined to. */
  lemma {:induction false} SafeNameStaysBelow(root: seq<string>, name: string, upper: string -> string)
    requires SafeName(name, upper)
    ensures Walk(root, Parts(name)) == root + Parts(name) && |Parts(name)| >= 1
  {
    forall i | 0 <= i < |Parts(name)| ensures Parts(name)[i] !in {"", ".", ".."} {
      assert SafePart(Parts(name)[i], upper);
    }
    PlainPartsWalkDown(root, Parts(name));
  }

  /** The proper ancestors of a safe relative name. */
  function Ancestors(name: string): set<string> {
    set i | 0 < i < |name| && name[i] == '/' :: name[..i]
  }

  /** They are the proper starts of the name before a slash. */
  lemma {:induction false} AncestorPrecedes(name: string, a: string)
    ensures a in Ancestors(name) <==> a != "" && a + "/" <= name
  {
    if a != "" && a + "/" <= name {
      assert name[|a|] == (a + "/")[|a|] && name[..|a|] == (a + "/")[..|a|] == a;
    }
    if a in Ancestors(name) {
      var i :| 0 < i < |name| && name[i] == '/' && name[..i] == a;
      assert name[..i + 1] == a + "/";
    }
  }

  // ----- the allowlist -----

  datatype Manifest = Manifest(name: string, sha256: Option<string>, sizeBytes: Option<nat>)

  /** What the caller supplies for names on a real system: upper-casing and case folding. */
  datatype Names = Names(upper: string -> string, fold: string -> string)

  type Allowlist = seq<(string, Manifest)>

  ghost predicate EntrySafe(e: (string, Manifest), names: Names) {
    SafeName(e.0, names.upper) && e.1.sha256.Some? && SafeName(e.1.name, names.upper)
  }

  ghost predicate DistinctDestinations(list: Allowlist, names: Names) {
    forall i, j :: 0 <= i < j < |list| ==> names.fold(list[i].1.name) != names.fold(list[j].1.name)
  }

  /** No destination is, up to case, a directory that another destination needs. */
  ghost predicate NoFileUsedAsDirectory(list: Allowlist, names: Names) {
    forall i, j, a :: 0 <= i < |list| && 0 <= j < |list| && a in Ancestors(list[i].1.name) ==>
      names.fold(a) != names.fold(list[j].1.name)
  }

  ghost predicate AllowlistOk(list: Allowlist, names: Names) {
    && list != []
    && (forall i :: 0 <= i < |list| ==> EntrySafe(list[i], names))
    && DistinctDestinations(list, names)
    && NoFileUsedAsDirectory(list, names)
  }

  /** The directories that the listed members need. */
  function AllowedDirs(list: Allowlist): set<string> {
    set i, a | 0 <= i < |list| && a in Ancestors(list[i].0) :: a
  }

  lemma {:induction false} AllowedDirPrecedes(list: Allowlist, a: string)
    ensures a in AllowedDirs(list) <==> a != "" && exists i :: 0 <= i < |list| && a + "/" <= list[i].0
  {
    forall i | 0 <= i < |list| ensures a in Ancestors(list[i].0) <==> a != "" && a + "/" <= list[i].0 {
      AncestorPrecedes(list[i].0, a);
    }
  }

  function FoldedDestinations(list: Allowlist, names: Names, n: nat): set<string>
    requires n <= |list|
  {
    set j | 0 <= j < n :: names.fold(list[j].1.name)
  }

  method CheckEntries(list: Allowlist, names: Names) returns (r: Result<set<string>, IntegrityError>)
    ensures r.Ok? <==> (forall i :: 0 <= i < |list| ==> EntrySafe(list[i], names)) && DistinctDestinations(list, names)
    ensures r.Ok? ==> r.value == FoldedDestinations(list, names, |list|)
  {
    var folded: set<string> := {};
    for i := 0 to |list|
      invariant forall j :: 0 <= j < i ==> EntrySafe(list[j], names)
      invariant DistinctDestinations(list[..i], names)
      invariant folded == FoldedDestinations(list, names, i)
    {
      var (name, manifest) := list[i];
      var safe := RelativeName(name, names.upper);
      if !safe { return Err(UnsafeName); }
      if manifest.sha256.None? { return Err(NotPinned); }
      safe := RelativeName(manifest.name, names.upper);
      if !safe { return Err(UnsafeName); }
      DestinationsGrow(list, i, names);
      if names.fold(manifest.name) in folded { return Err(DuplicateDestination); }
      folded := folded + {names.fold(manifest.name)};
    }
    assert list[..|list|] == list;
    return Ok(folded);
  }

  lemma {:induction false} DestinationsGrow(list: Allowlist, i: nat, names: Names)
    requires i < |list| && DistinctDestinations(list[..i], names)
    ensures names.fold(list[i].1.name) in FoldedDestinations(list, names, i) ==> !DistinctDestinations(list, names)
    ensures names.fold(list[i].1.name) !in FoldedDestinations(list, names, i) ==>
      DistinctDestinations(list[..i + 1], names)
  {
    if names.fold(list[i].1.name) !in FoldedDestinations(list, names, i) {
      var before, more := list[..i], list[..i + 1];
      forall j, k | 0 <= j < k < |more| ensures names.fold(more[j].1.name) != names.fold(more[k].1.name) {
        if k < i { assert more[j] == before[j] && more[k] == before[k]; }
      }
    }
  }

  method CheckAllowlist(list: Allowlist, names: Names) returns (r: Result<set<string>, IntegrityError>)
    ensures r.Ok? <==> AllowlistOk(list, names)
    ensures r.Ok? ==> r.value == AllowedDirs(list)
  {
    if list == [] { return Err(EmptyAllowlist); }
    var entries := CheckEntries(list, names);
    if entries.Err? { return Err(entries.error); }
    for i := 0 to |list|
      invariant forall k, a :: 0 <= k < i && a in Ancestors(list[k].1.name) ==> names.fold(a) !in entries.value
    {
      if exists a :: a in Ancestors(list[i].1.name) && names.fold(a) in entries.value {
        var a :| a in Ancestors(list[i].1.name) && names.fold(a) in entries.value;
        ClashFound(list, names, i, a);
        return Err(OverlappingDestinations);
      }
    }
    return Ok(AllowedDirs(list));
  }

  lemma {:induction false} ClashFound(list: Allowlist, names: Names, i: nat, a: string)
    requires i < |list| && a in Ancestors(list[i].1.name) && names.fold(a) in FoldedDestinations(list, names, |list|)
    ensures !NoFileUsedAsDirectory(list, names)
  {
    var j :| 0 <= j < |list| && names.fold(list[j].1.name) == names.fold(a);
  }

  // ----- the archive's directory -----

  datatype Mode = Unset | Directory | Regular | OtherMode

  /** A member as listed: directories end in a slash. */
  datatype Member = Member(filename: string, mode: Mode, encrypted: bool, fileSize: nat)
  {
    predicate IsDir() { filename != "" && filename[|filename| - 1] == '/' }

    function Name(): string {
      if IsDir() then filename[..|filename| - 1] else filename
    }
  }

  /** A directory is listed as its name and a slash, a file as its name, which does not end in one. */
  lemma {:induction false} ListedAs(m: Member)
    ensures m.filename == m.Name() + if m.IsDir() then "/" else ""
    ensures m.IsDir() <==> exists base :: m.filename == base + "/"
  {
    if m.IsDir() { assert m.filename == m.Name() + "/"; }
  }

  type Planned = seq<(Member, Manifest)>

  function Files(members: seq<Member>): seq<Member> {
    if members == [] then []
    else
      var last := members[|members| - 1];
      Files(members[..|members| - 1]) + if last.IsDir() then [] else [last]
  }

  function DeclaredSize(members: seq<Member>): nat {
    if members == [] then 0
    else
      var last := members[|members| - 1];
      DeclaredSize(members[..|members| - 1]) + if last.IsDir() then 0 else last.fileSize
  }

  ghost predicate MemberOk(m: Member, expected: map<string, Manifest>, dirs: set<string>, names: Names) {
    && SafeName(m.Name(), names.upper)
    && (m.IsDir() ==> m.Name() in dirs && m.mode in {Unset, Directory})
    && (!m.IsDir() ==>
          && m.Name() in expected && m.mode in {Unset, Regular} && !m.encrypted
          && (expected[m.Name()].sizeBytes.Some? ==> m.fileSize == expected[m.Name()].sizeBytes.value))
  }

  ghost predicate DistinctMembers(members: seq<Member>, names: Names) {
    forall i, j :: 0 <= i < j < |members| ==> names.fold(members[i].Name()) != names.fold(members[j].Name())
  }

  ghost predicate ArchiveOk(
    members: seq<Member>, expected: map<string, Manifest>, dirs: set<string>, limit: nat, names: Names)
  {
    && (forall i :: 0 <= i < |members| ==> MemberOk(members[i], expected, dirs, names))
    && DistinctMembers(members, names)
    && DeclaredSize(members) <= limit
    && (forall name :: !Missing(members, expected, name))
  }

  ghost predicate IsPlan(planned: Planned, files: seq<Member>, expected: map<string, Manifest>) {
    && |planned| == |files|
    && forall i :: 0 <= i < |planned| ==>
         planned[i].0 == files[i] && files[i].filename in expected && planned[i].1 == expected[files[i].filename]
  }

  lemma {:induction false} DeclaredSizeMonotone(members: seq<Member>, n: nat)
    requires n <= |members|
    ensures DeclaredSize(members[..n]) <= DeclaredSize(members)
    decreases |members|
  {
    if n < |members| {
      var front := members[..|members| - 1];
      DeclaredSizeMonotone(front, n);
      assert front[..n] == members[..n];
    } else {
      assert members[..n] == members;
    }
  }

  ghost predicate SoFarOk(
    members: seq<Member>, n: nat, expected: map<string, Manifest>, dirs: set<string>, limit: nat, names: Names)
    requires n <= |members|
  {
    && (forall j :: 0 <= j < n ==> MemberOk(members[j], expected, dirs, names))
    && (forall j, k :: 0 <= j < k < n ==> names.fold(members[j].Name()) != names.fold(members[k].Name()))
    && DeclaredSize(members[..n]) <= limit
  }

  /** What is wrong with a listed member whose name is safe and new; `declared` already counts it. */
  function ListingProblem(
    m: Member, expected: map<string, Manifest>, dirs: set<string>, declared: nat, limit: nat): Option<IntegrityError>
  {
    if m.IsDir() then
      if m.Name() !in dirs || m.mode !in {Unset, Directory} then Some(UnexpectedMember) else None
    else if m.Name() !in expected || m.mode !in {Unset, Regular} || m.encrypted then Some(UnexpectedMember)
    else if declared > limit then Some(TooLarge)
    else if expected[m.Name()].sizeBytes.Some? && m.fileSize != expected[m.Name()].sizeBytes.value then
      Some(SizeMismatch)
    else None
  }

  lemma {:induction false} ProblemsMatter(
    members: seq<Member>, i: nat, expected: map<string, Manifest>, dirs: set<string>, limit: nat, names: Names)
    requires i < |members|
    requires !MemberOk(members[i], expected, dirs, names) || DeclaredSize(members[..i + 1]) > limit
    ensures !SoFarOk(members, |members|, expected, dirs, limit, names)
  {
    DeclaredSizeMonotone(members, i + 1);
    assert members[..|members|] == members;
  }

  lemma {:induction false} ListingProblemMeans(
    m: Member, expected: map<string, Manifest>, dirs: set<string>, declared: nat, limit: nat, names: Names)
    requires SafeName(m.Name(), names.upper)
    ensures ListingProblem(m, expected, dirs, declared, limit).None? <==>
      MemberOk(m, expected, dirs, names) && (m.IsDir() || declared <= limit)
  {
  }

  lemma {:induction false} OneMore(
    members: seq<Member>, i: nat, expected: map<string, Manifest>, dirs: set<string>, limit: nat, names: Names)
    requires i < |members| && SoFarOk(members, i, expected, dirs, limit, names)
    requires forall j :: 0 <= j < i ==> names.fold(members[j].Name()) != names.fold(members[i].Name())
    ensures DeclaredSize(members[..i + 1]) ==
      DeclaredSize(members[..i]) + if members[i].IsDir() then 0 else members[i].fileSize
    ensures Files(members[..i + 1]) == Files(members[..i]) + if members[i].IsDir() then [] else [members[i]]
    ensures SoFarOk(members, i + 1, expected, dirs, limit, names) <==>
      MemberOk(members[i], expected, dirs, names) && DeclaredSize(members[..i + 1]) <= limit
  {
    assert members[..i + 1][..i] == members[..i];
  }

  function Folded(members: seq<Member>, n: nat, names: Names): set<string>
    requires n <= |members|
  {
    set j | 0 <= j < n :: names.fold(members[j].Name())
  }

  lemma {:induction false} FoldedGrows(members: seq<Member>, i: nat, names: Names)
    requires i < |members|
    ensures Folded(members, i + 1, names) == Folded(members, i, names) + {names.fold(members[i].Name())}
    ensures names.fold(members[i].Name()) in Folded(members, i, names) ==> !DistinctMembers(members, names)
  {
  }

  /** The planning loop: accepts exactly the archives that `ArchiveOk` describes. */
  method PlanMembers(
    members: seq<Member>, expected: map<string, Manifest>, dirs: set<string>, limit: nat, names: Names)
    returns (r: Result<Planned, IntegrityError>)
    ensures r.Ok? <==> ArchiveOk(members, expected, dirs, limit, names)
    ensures r.Ok? ==> IsPlan(r.value, Files(members), expected)
  {
    var loop := PlanLoop(members, expected, dirs, limit, names);
    assert members[..|members|] == members;
    if loop.Err? { return loop; }
    NamesMissing(members, loop.value, expected);
    if PlannedNames(loop.value, |loop.value|) != expected.Keys { return Err(MissingMembers); }
    return loop;
  }

  /** The checks on one listed member, in order; `declared` becomes the declared size including it. */
  method CheckMember(
    members: seq<Member>, i: nat, expected: map<string, Manifest>, dirs: set<string>, limit: nat, names: Names,
    seen: set<string>, before: nat)
    returns (problem: Option<IntegrityError>, declared: nat)
    requires i < |members| && SoFarOk(members, i, expected, dirs, limit, names)
    requires seen == Folded(members, i, names) && before == DeclaredSize(members[..i])
    ensures problem.None? ==> SoFarOk(members, i + 1, expected, dirs, limit, names)
    ensures problem.None? ==> MemberOk(members[i], expected, dirs, names) && declared == DeclaredSize(members[..i + 1])
    ensures problem.Some? ==> !SoFarOk(members, |members|, expected, dirs, limit, names)
  {
    var m := members[i];
    declared := before;
    var safe := RelativeName(m.Name(), names.upper);
    if !safe {
      ProblemsMatter(members, i, expected, dirs, limit, names);
      return Some(UnsafeName), declared;
    }
    FoldedGrows(members, i, names);
    if names.fold(m.Name()) in seen { return Some(DuplicateMember), declared; }
    OneMore(members, i, expected, dirs, limit, names);
    declared := declared + if m.IsDir() then 0 else m.fileSize;
    ListingProblemMeans(m, expected, dirs, declared, limit, names);
    problem := ListingProblem(m, expected, dirs, declared, limit);
    if problem.Some? { ProblemsMatter(members, i, expected, dirs, limit, names); }
  }

  lemma {:induction false} PlanGrows(
    members: seq<Member>, i: nat, planned: Planned, expected: map<string, Manifest>, dirs: set<string>, names: Names)
    requires i < |members| && IsPlan(planned, Files(members[..i]), expected)
    requires MemberOk(members[i], expected, dirs, names)
    ensures
      var m := members[i];
      IsPlan(if m.IsDir() then planned else planned + [(m, expected[m.Name()])], Files(members[..i + 1]), expected)
  {
    assert members[..i + 1][..i] == members[..i] && members[..i + 1][i] == members[i];
  }

  method PlanLoop(
    members: seq<Member>, expected: map<string, Manifest>, dirs: set<string>, limit: nat, names: Names)
    returns (r: Result<Planned, IntegrityError>)
    ensures r.Ok? <==> SoFarOk(members, |members|, expected, dirs, limit, names)
    ensures r.Ok? ==> IsPlan(r.value, Files(members), expected)
  {
    var seen: set<string>, planned: Planned, declared: nat := {}, [], 0;
    for i := 0 to |members|
      invariant SoFarOk(members, i, expected, dirs, limit, names)
      invariant seen == Folded(members, i, names)
      invariant declared == DeclaredSize(members[..i])
      invariant IsPlan(planned, Files(members[..i]), expected)
    {
      var m := members[i];
      var problem;
      problem, declared := CheckMember(members, i, expected, dirs, limit, names, seen, declared);
      if problem.Some? { return Err(problem.value); }
      FoldedGrows(members, i, names);
      PlanGrows(members, i, planned, expected, dirs, names);
      seen := seen + {names.fold(m.Name())};
      if !m.IsDir() { planned := planned + [(m, expected[m.Name()])]; }
    }
    assert members[..|members|] == members;
    return Ok(planned);
  }

  lemma {:induction false} FilesAreMembers(members: seq<Member>)
    ensures forall f :: f in Files(members) <==> f in members && !f.IsDir()
  {
    if members != [] {
      FilesAreMembers(members[..|members| - 1]);
      assert members == members[..|members| - 1] + [members[|members| - 1]];
    }
  }

  /** An allowlisted name that no file of the archive carries. */
  ghost predicate Missing(members: seq<Member>, expected: map<string, Manifest>, name: string) {
    name in expected && forall i :: 0 <= i < |members| && !members[i].IsDir() ==> members[i].filename != name
  }

  function PlannedNames(planned: Planned, n: nat): set<string>
    requires n <= |planned|
  {
    set i | 0 <= i < n :: planned[i].0.filename
  }

  lemma {:induction false} PlannedNamesAreFiles(members: seq<Member>, planned: Planned, expected: map<string, Manifest>)
    requires IsPlan(planned, Files(members), expected)
    ensures forall name :: name in PlannedNames(planned, |planned|) <==>
      exists i :: 0 <= i < |members| && !members[i].IsDir() && members[i].filename == name
    ensures PlannedNames(planned, |planned|) <= expected.Keys
  {
    FilesAreMembers(members);
    forall name | name in PlannedNames(planned, |planned|)
      ensures exists i :: 0 <= i < |members| && !members[i].IsDir() && members[i].filename == name
    {
      var p :| 0 <= p < |planned| && planned[p].0.filename == name;
      assert planned[p].0 in Files(members);
    }
    forall i | 0 <= i < |members| && !members[i].IsDir()
      ensures members[i].filename in PlannedNames(planned, |planned|)
    {
      assert members[i] in Files(members);
    }
  }

  lemma {:induction false} NamesMissing(members: seq<Member>, planned: Planned, expected: map<string, Manifest>)
    requires IsPlan(planned, Files(members), expected)
    ensures PlannedNames(planned, |planned|) == expected.Keys <==> !exists name :: Missing(members, expected, name)
  {
    PlannedNamesAreFiles(members, planned, expected);
    var have := PlannedNames(planned, |planned|);
    if have != expected.Keys {
      var name :| name in expected && name !in have;
      assert Missing(members, expected, name);
    }
  }

  /** Accepted archives list every allowlisted member exactly once, and nothing else. */
  lemma {:induction false} PlanIsBijection(
    members: seq<Member>, planned: Planned, expected: map<string, Manifest>, dirs: set<string>, limit: nat,
    names: Names)
    requires ArchiveOk(members, expected, dirs, limit, names) && IsPlan(planned, Files(members), expected)
    ensures PlannedNames(planned, |planned|) == expected.Keys
    ensures forall i, j :: 0 <= i < j < |planned| ==> planned[i].0.filename != planned[j].0.filename
    ensures |planned| == |expected|
  {
    NamesMissing(members, planned, expected);
    FilesDistinct(members, names);
    forall i, j | 0 <= i < j < |planned| ensures planned[i].0.filename != planned[j].0.filename {
      assert names.fold(Files(members)[i].filename) != names.fold(Files(members)[j].filename);
    }
    NamesCount(planned, |planned|);
  }

  lemma {:induction false} FilesDistinct(members: seq<Member>, names: Names)
    requires DistinctMembers(members, names)
    ensures forall i, j :: 0 <= i < j < |Files(members)| ==>
      names.fold(Files(members)[i].filename) != names.fold(Files(members)[j].filename)
  {
    if members != [] {
      var front, last := members[..|members| - 1], members[|members| - 1];
      FilesDistinct(front, names);
      FilesAreMembers(front);
      forall i | 0 <= i < |Files(front)| ensures names.fold(Files(front)[i].filename) != names.fold(last.Name()) {
        assert Files(front)[i] in front;
      }
    }
  }

  lemma {:induction false} NamesCount(planned: Planned, n: nat)
    requires n <= |planned|
    requires forall i, j :: 0 <= i < j < |planned| ==> planned[i].0.filename != planned[j].0.filename
    ensures |PlannedNames(planned, n)| == n
  {
    if n > 0 {
      NamesCount(planned, n - 1);
      assert PlannedNames(planned, n) == PlannedNames(planned, n - 1) + {planned[n - 1].0.filename};
      assert planned[n - 1].0.filename !in PlannedNames(planned, n - 1);
    }
  }

  // ----- writing the planned members -----

  function TotalSize(contents: seq<seq<Byte>>): nat {
    if contents == [] then 0 else TotalSize(contents[..|contents| - 1]) + |contents[|contents| - 1]|
  }

  ghost function Joined(contents: seq<seq<Byte>>): seq<Byte> {
    if contents == [] then [] else contents[0] + Joined(contents[1..])
  }

  lemma {:induction false} JoinedAppend(contents: seq<seq<Byte>>, last: seq<Byte>)
    ensures |Joined(contents + [last])| == |Joined(contents)| + |last|
  {
    if contents == [] {
      assert (contents + [last])[1..] == [];
    } else {
      assert (contents + [last])[1..] == contents[1..] + [last];
      JoinedAppend(contents[1..], last);
    }
  }

  /** The bytes that count against the limit are those of all contents, one after the other. */
  lemma {:induction false} TotalSizeIsLength(contents: seq<seq<Byte>>)
    ensures TotalSize(contents) == |Joined(contents)|
  {
    if contents != [] {
      var n := |contents| - 1;
      TotalSizeIsLength(contents[..n]);
      JoinedAppend(contents[..n], contents[n]);
      assert contents == contents[..n] + [contents[n]];
    }
  }

  ghost predicate ContentOk(manifest: Manifest, content: seq<Byte>, hash: seq<Byte> -> string) {
    && manifest.sha256 == Some(hash(content))
    && (manifest.sizeBytes.Some? ==> manifest.sizeBytes.value == |content|)
  }

  ghost predicate ExtractionOk(planned: Planned, contents: seq<seq<Byte>>, limit: nat, hash: seq<Byte> -> string)
    requires |contents| == |planned|
  {
    TotalSize(contents) <= limit && forall i :: 0 <= i < |planned| ==> ContentOk(planned[i].1, contents[i], hash)
  }

  lemma {:induction false} TotalSizeMonotone(contents: seq<seq<Byte>>, n: nat)
    requires n <= |contents|
    ensures TotalSize(contents[..n]) <= TotalSize(contents)
    decreases |contents|
  {
    if n < |contents| {
      TotalSizeMonotone(contents[..|contents| - 1], n);
      assert contents[..|contents| - 1][..n] == contents[..n];
    } else {
      assert contents[..n] == contents;
    }
  }

  /** What one output file leaves behind. */
  method ExtractOne(manifest: Manifest, content: seq<Byte>, limit: nat, hash: seq<Byte> -> string)
    returns (r: Result<seq<Byte>, IntegrityError>)
    ensures r.Ok? <==> |content| <= limit && ContentOk(manifest, content, hash)
    ensures r.Ok? ==> r.value == content
  {
    var source := new ByteSource(content);
    var output := new ByteSink();
    assert source.data[source.pos..] == content;
    var copied := CopyHash(source, output, limit, hash);
    if copied.Err? { return Err(copied.error); }
    if manifest.sha256 != Some(copied.value.digest) { return Err(DigestMismatch); }
    if manifest.sizeBytes.Some? && manifest.sizeBytes.value != copied.value.size { return Err(SizeMismatch); }
    return Ok(output.written);
  }

  function Installed(planned: Planned, contents: seq<seq<Byte>>, n: nat): map<string, seq<Byte>>
    requires n <= |planned| == |contents|
  {
    if n == 0 then map[] else Installed(planned, contents, n - 1)[planned[n - 1].1.name := contents[n - 1]]
  }

  /** The extraction loop: one fresh output file per planned member, under the limit that is left. */
  method ExtractAll(planned: Planned, contents: seq<seq<Byte>>, limit: nat, hash: seq<Byte> -> string)
    returns (r: Result<map<string, seq<Byte>>, IntegrityError>)
    requires |contents| == |planned|
    ensures r.Ok? <==> ExtractionOk(planned, contents, limit, hash)
    ensures r.Ok? ==> r.value == Installed(planned, contents, |planned|)
  {
    var ready: map<string, seq<Byte>> := map[];
    var total := 0;
    for i := 0 to |planned|
      invariant total == TotalSize(contents[..i]) <= limit
      invariant forall j :: 0 <= j < i ==> ContentOk(planned[j].1, contents[j], hash)
      invariant ready == Installed(planned, contents, i)
    {
      assert contents[..i + 1][..i] == contents[..i];
      TotalSizeMonotone(contents, i + 1);
      var one := ExtractOne(planned[i].1, contents[i], limit - total, hash);
      if one.Err? { return Err(one.error); }
      total := total + |one.value|;
      ready := ready[planned[i].1.name := one.value];
    }
    assert contents[..|contents|] == contents;
    return Ok(ready);
  }

  /** With distinct destinations nothing is overwritten: the tree is one verified file per member. */
  lemma {:induction false} InstalledIsExact(planned: Planned, contents: seq<seq<Byte>>, n: nat)
    requires n <= |planned| == |contents|
    requires forall i, j :: 0 <= i < j < |planned| ==> planned[i].1.name != planned[j].1.name
    ensures forall i :: 0 <= i < n ==>
      planned[i].1.name in Installed(planned, contents, n)
      && Installed(planned, contents, n)[planned[i].1.name] == contents[i]
    ensures |Installed(planned, contents, n)| == n
    ensures forall d :: d in Installed(planned, contents, n) ==> exists i :: 0 <= i < n && d == planned[i].1.name
  {
    if n > 0 { InstalledIsExact(planned, contents, n - 1); }
  }

  // ----- from allowlist and archive to a verified tree -----

  ghost predicate IsDictionary(list: Allowlist) {
    forall i, j :: 0 <= i < j < |list| ==> list[i].0 != list[j].0
  }

  function ToMap(list: Allowlist): (m: map<string, Manifest>)
    ensures m.Keys == set i | 0 <= i < |list| :: list[i].0
  {
    if list == [] then map[] else ToMap(list[..|list| - 1])[list[|list| - 1].0 := list[|list| - 1].1]
  }

  lemma {:induction false} ToMapEntries(list: Allowlist)
    requires IsDictionary(list)
    ensures forall i :: 0 <= i < |list| ==> ToMap(list)[list[i].0] == list[i].1
  {
    if list != [] {
      ToMapEntries(list[..|list| - 1]);
    }
  }

  function Contents(files: seq<Member>, content: string -> seq<Byte>): (c: seq<seq<Byte>>)
    ensures |c| == |files| && forall i :: 0 <= i < |files| ==> c[i] == content(files[i].filename)
  {
    if files == [] then []
    else Contents(files[..|files| - 1], content) + [content(files[|files| - 1].filename)]
  }

  /** Every allowlisted member has its pinned digest and size. */
  ghost predicate DigestsOk(list: Allowlist, content: string -> seq<Byte>, hash: seq<Byte> -> string) {
    forall i :: 0 <= i < |list| ==> ContentOk(list[i].1, content(list[i].0), hash)
  }

  lemma {:induction false} PlannedEntry(list: Allowlist, planned: Planned, files: seq<Member>, p: nat) returns (i: nat)
    requires IsDictionary(list) && IsPlan(planned, files, ToMap(list)) && p < |planned|
    ensures i < |list| && list[i].0 == planned[p].0.filename && list[i].1 == planned[p].1
  {
    ToMapEntries(list);
    assert planned[p].0.filename in ToMap(list);
    var k :| 0 <= k < |list| && list[k].0 == planned[p].0.filename;
    i := k;
  }

  lemma {:induction false} DestinationsDistinct(list: Allowlist, planned: Planned, files: seq<Member>, names: Names)
    requires IsDictionary(list) && DistinctDestinations(list, names) && IsPlan(planned, files, ToMap(list))
    requires forall i, j :: 0 <= i < j < |planned| ==> planned[i].0.filename != planned[j].0.filename
    ensures forall p, q :: 0 <= p < q < |planned| ==> planned[p].1.name != planned[q].1.name
  {
    forall p, q | 0 <= p < q < |planned| ensures planned[p].1.name != planned[q].1.name {
      var i := PlannedEntry(list, planned, files, p);
      var j := PlannedEntry(list, planned, files, q);
      if i < j { assert names.fold(list[i].1.name) != names.fold(list[j].1.name); }
      else { assert names.fold(list[j].1.name) != names.fold(list[i].1.name); }
    }
  }

  lemma {:induction false} ExtractionMeansDigests(
    list: Allowlist, members: seq<Member>, planned: Planned, content: string -> seq<Byte>, limit: nat,
    hash: seq<Byte> -> string)
    requires IsDictionary(list) && IsPlan(planned, Files(members), ToMap(list))
    requires PlannedNames(planned, |planned|) == ToMap(list).Keys
    ensures ExtractionOk(planned, Contents(Files(members), content), limit, hash) <==>
      TotalSize(Contents(Files(members), content)) <= limit && DigestsOk(list, content, hash)
  {
    var contents := Contents(Files(members), content);
    ToMapEntries(list);
    if ExtractionOk(planned, contents, limit, hash) {
      forall i | 0 <= i < |list| ensures ContentOk(list[i].1, content(list[i].0), hash) {
        assert list[i].0 in PlannedNames(planned, |planned|);
        var p :| 0 <= p < |planned| && planned[p].0.filename == list[i].0;
        assert ContentOk(planned[p].1, contents[p], hash);
      }
    }
    if DigestsOk(list, content, hash) {
      forall p | 0 <= p < |planned| ensures ContentOk(planned[p].1, contents[p], hash) {
        var i := PlannedEntry(list, planned, Files(members), p);
        assert ContentOk(list[i].1, content(list[i].0), hash);
      }
    }
  }

  /** A tree of exactly the allowlisted destinations, each holding its member's bytes. */
  ghost predicate IsVerifiedTree(tree: map<string, seq<Byte>>, list: Allowlist, content: string -> seq<Byte>) {
    && (forall d :: d in tree <==> exists i :: 0 <= i < |list| && list[i].1.name == d)
    && (forall i :: 0 <= i < |list| && list[i].1.name in tree ==> tree[list[i].1.name] == content(list[i].0))
  }

  function PlanEntries(planned: Planned): (entries: seq<(string, Manifest)>)
    ensures |entries| == |planned|
  {
    seq(|planned|, p requires 0 <= p < |planned| => (planned[p].0.filename, planned[p].1))
  }

  lemma {:induction false} PlannedIsListed(list: Allowlist, members: seq<Member>, planned: Planned, p: nat)
    requires IsDictionary(list) && IsPlan(planned, Files(members), ToMap(list)) && p < |planned|
    ensures PlanEntries(planned)[p] in list
  {
    var i := PlannedEntry(list, planned, Files(members), p);
    assert list[i] == PlanEntries(planned)[p];
  }

  lemma {:induction false} ListedIsPlanned(list: Allowlist, members: seq<Member>, planned: Planned, i: nat)
    requires IsDictionary(list) && IsPlan(planned, Files(members), ToMap(list)) && i < |list|
    requires PlannedNames(planned, |planned|) == ToMap(list).Keys
    ensures list[i] in PlanEntries(planned)
  {
    ToMapEntries(list);
    assert list[i].0 in PlannedNames(planned, |planned|);
    var p :| 0 <= p < |planned| && planned[p].0.filename == list[i].0;
    assert PlanEntries(planned)[p] == list[i];
  }

  /** The plan holds exactly the entries of the allowlist. */
  lemma {:induction false} PlanIsAllowlist(list: Allowlist, members: seq<Member>, planned: Planned)
    requires IsDictionary(list) && IsPlan(planned, Files(members), ToMap(list))
    requires PlannedNames(planned, |planned|) == ToMap(list).Keys
    ensures forall e :: e in PlanEntries(planned) <==> e in list
  {
    forall e | e in PlanEntries(planned) ensures e in list {
      var p :| 0 <= p < |planned| && PlanEntries(planned)[p] == e;
      PlannedIsListed(list, members, planned, p);
    }
    forall e | e in list ensures e in PlanEntries(planned) {
      var i :| 0 <= i < |list| && list[i] == e;
      ListedIsPlanned(list, members, planned, i);
    }
  }

  /** The tree holds the content of every planned entry at its destination, and nothing else. */
  ghost predicate HoldsPlan(
      tree: map<string, seq<Byte>>, entries: seq<(string, Manifest)>, content: string -> seq<Byte>)
  {
    && (forall p :: 0 <= p < |entries| ==>
          entries[p].1.name in tree && tree[entries[p].1.name] == content(entries[p].0))
    && (forall d :: d in tree ==> exists p :: 0 <= p < |entries| && entries[p].1.name == d)
  }

  lemma {:induction false} InstalledHoldsPlan(planned: Planned, files: seq<Member>, expected: map<string, Manifest>,
                                              content: string -> seq<Byte>)
    requires IsPlan(planned, files, expected)
    requires forall i, j :: 0 <= i < j < |planned| ==> planned[i].1.name != planned[j].1.name
    ensures HoldsPlan(Installed(planned, Contents(files, content), |planned|), PlanEntries(planned), content)
  {
    var contents, entries := Contents(files, content), PlanEntries(planned);
    var tree := Installed(planned, contents, |planned|);
    InstalledIsExact(planned, contents, |planned|);
    forall p | 0 <= p < |entries|
      ensures entries[p].1.name in tree && tree[entries[p].1.name] == content(entries[p].0)
    {
      assert contents[p] == content(planned[p].0.filename);
    }
    forall d | d in tree ensures exists p :: 0 <= p < |entries| && entries[p].1.name == d {
      var p :| 0 <= p < |planned| && d == planned[p].1.name;
      assert entries[p].1.name == d;
    }
  }

  lemma {:induction false} VerifiedByPlan(
    tree: map<string, seq<Byte>>, list: Allowlist, entries: seq<(string, Manifest)>, content: string -> seq<Byte>)
    requires HoldsPlan(tree, entries, content) && forall e :: e in entries <==> e in list
    ensures IsVerifiedTree(tree, list, content)
  {
    forall i | 0 <= i < |list| ensures list[i].1.name in tree && tree[list[i].1.name] == content(list[i].0) {
      assert list[i] in entries;
    }
    forall d | d in tree ensures exists i :: 0 <= i < |list| && list[i].1.name == d {
      var p :| 0 <= p < |entries| && entries[p].1.name == d;
      assert entries[p] in list;
    }
  }

  lemma {:induction false} InstalledTreeIsVerified(
    list: Allowlist, members: seq<Member>, planned: Planned, content: string -> seq<Byte>, names: Names)
    requires IsDictionary(list) && DistinctDestinations(list, names) && IsPlan(planned, Files(members), ToMap(list))
    requires PlannedNames(planned, |planned|) == ToMap(list).Keys
    requires forall i, j :: 0 <= i < j < |planned| ==> planned[i].0.filename != planned[j].0.filename
    ensures IsVerifiedTree(Installed(planned, Contents(Files(members), content), |planned|), list, content)
  {
    var tree := Installed(planned, Contents(Files(members), content), |planned|);
    DestinationsDistinct(list, planned, Files(members), names);
    InstalledHoldsPlan(planned, Files(members), ToMap(list), content);
    PlanIsAllowlist(list, members, planned);
    VerifiedByPlan(tree, list, PlanEntries(planned), content);
  }

  /**
   * Everything `extract_verified_zip` does before it installs: it succeeds exactly on a safe allowlist, a matching
   * archive, pinned contents and sizes within the limit, and then it holds exactly the verified tree.
   */
  method BuildTree(
    list: Allowlist, members: seq<Member>, content: string -> seq<Byte>, limit: nat, names: Names,
    hash: seq<Byte> -> string)
    returns (r: Result<map<string, seq<Byte>>, IntegrityError>)
    requires IsDictionary(list)
    ensures r.Ok? <==>
      && AllowlistOk(list, names)
      && ArchiveOk(members, ToMap(list), AllowedDirs(list), limit, names)
      && TotalSize(Contents(Files(members), content)) <= limit
      && DigestsOk(list, content, hash)
    ensures r.Ok? ==> IsVerifiedTree(r.value, list, content)
  {
    var dirs := CheckAllowlist(list, names);
    if dirs.Err? { return Err(dirs.error); }
    var planned := PlanMembers(members, ToMap(list), dirs.value, limit, names);
    if planned.Err? { return Err(planned.error); }
    PlanIsBijection(members, planned.value, ToMap(list), dirs.value, limit, names);
    ExtractionMeansDigests(list, members, planned.value, content, limit, hash);
    InstalledTreeIsVerified(list, members, planned.value, content, names);
    r := ExtractAll(planned.value, Contents(Files(members), content), limit, hash);
  }
}
