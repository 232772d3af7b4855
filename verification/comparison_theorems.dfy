/** What an issue-free comparison means. */
module ComparisonTheorems {
  import opened Paths
  import opened Wrappers
  import opened Plans
  import opened Evidence
  import opened Records
  import opened Resolve
  import opened Visibility
  import opened Coherence
  import opened Comparison
  import opened Exposure

  // ----- an empty issue list, condition by condition -----

  ghost predicate DeclaredOk(l: Record, r: Record, role: Role, d: string) {
    && ResolveDimension(l, d).Found?
    && ResolveDimension(r, d).Found?
    && (role in {Control, Block} ==> ResolveDimension(l, d) == ResolveDimension(r, d))
  }

  /** A leaf raises no issue: no difference, a declaration, or evidence of a varied dimension that both sides hold. */
  ghost predicate LeafOk(plan: Plan, l: LeafSet, r: LeafSet, p: string) {
    || SideAt(l, p) == SideAt(r, p)
    || Declared(plan, p)
    || (Downstream(plan.vary, p) && SideAt(l, p).Present? && SideAt(r, p).Present?)
  }

  ghost predicate RoleOk(l: Record, r: Record, plan: Plan, role: Role) {
    forall d :: d in plan.Dimensions(role) ==> DeclaredOk(l, r, role, d)
  }

  ghost predicate DeclarationsOk(l: Record, r: Record, plan: Plan) {
    RoleOk(l, r, plan, Vary) && RoleOk(l, r, plan, Control) && RoleOk(l, r, plan, Block) && RoleOk(l, r, plan, Waiver)
  }

  ghost predicate LeavesOk(plan: Plan, l: LeafSet, r: LeafSet) {
    forall p :: LeafOk(plan, l, r, p)
  }

  ghost predicate IssueFree(l: Record, r: Record, plan: Plan) {
    && l.status == Completed && r.status == Completed
    && DeclarationsOk(l, r, plan)
    && UnambiguousRecord(l) && UnambiguousRecord(r)
    && LeavesOk(plan, VisibleLeaves(l), VisibleLeaves(r))
  }

  ghost predicate IsReport(l: Record, r: Record, plan: Plan, issues: seq<Issue>) {
    exists leafIssues, waived ::
      LeafFindings(l, r, plan, leafIssues, waived)
      && issues == StatusIssues(l, r) + DeclarationIssues(l, r, plan) + leafIssues
  }

  lemma {:induction false} DeclaredIssuesEmpty(l: Record, r: Record, role: Role, dims: seq<string>)
    ensures DeclaredIssues(l, r, role, dims) == [] <==> forall d :: d in dims ==> DeclaredOk(l, r, role, d)
  {
    if dims != [] {
      var last, front := dims[|dims| - 1], dims[..|dims| - 1];
      DeclaredIssuesEmpty(l, r, role, front);
      assert dims == front + [last];
      DeclaredIssueNone(l, r, role, last);
    }
  }

  lemma {:induction false} DeclaredIssueNone(l: Record, r: Record, role: Role, d: string)
    ensures (DeclaredIssue(l, r, d, role).None?) == DeclaredOk(l, r, role, d)
  {}

  lemma {:induction false} LeafIssuesEmpty(plan: Plan, l: LeafSet, r: LeafSet, paths: seq<string>)
    ensures LeafIssues(plan, l, r, paths) == [] <==> forall p :: p in paths ==> LeafOk(plan, l, r, p)
  {
    if paths != [] {
      var last, front := paths[|paths| - 1], paths[..|paths| - 1];
      LeafIssuesEmpty(plan, l, r, front);
      assert paths == front + [last];
      LeafIssueEmpty(plan, l, r, last);
    }
  }

  lemma {:induction false} LeafIssueEmpty(plan: Plan, l: LeafSet, r: LeafSet, p: string)
    ensures SideAt(l, p) == SideAt(r, p) || (
      LeafOk(plan, l, r, p) <==> LeafIssue(RoleOf(plan, p), p, SideAt(l, p), SideAt(r, p)) == [])
  {
    RoleReads(plan, p, RoleOf(plan, p));
  }

  lemma {:induction false} RoleIssuesEmpty(l: Record, r: Record, plan: Plan, role: Role, dims: set<string>)
    requires dims == plan.Dimensions(role)
    ensures (DeclaredIssues(l, r, role, Sorted(dims)) == []) == RoleOk(l, r, plan, role)
  {
    DeclaredIssuesEmpty(l, r, role, Sorted(dims));
    assert forall d :: d in Sorted(dims) <==> d in plan.Dimensions(role);
  }

  lemma {:induction false} DeclarationIssuesEmpty(l: Record, r: Record, plan: Plan)
    ensures (DeclarationIssues(l, r, plan) == []) == DeclarationsOk(l, r, plan)
  {
    DimensionsOf(plan);
    RoleIssuesEmpty(l, r, plan, Vary, plan.vary);
    RoleIssuesEmpty(l, r, plan, Control, plan.control);
    RoleIssuesEmpty(l, r, plan, Block, plan.blockBy);
    RoleIssuesEmpty(l, r, plan, Waiver, plan.waivers.Keys);
    FourRoles(l, r, plan,
              DeclaredIssues(l, r, Vary, Sorted(plan.vary)), DeclaredIssues(l, r, Control, Sorted(plan.control)),
              DeclaredIssues(l, r, Block, Sorted(plan.blockBy)),
              DeclaredIssues(l, r, Waiver, Sorted(plan.waivers.Keys)));
  }

  lemma {:induction false} DimensionsOf(plan: Plan)
    ensures plan.vary == plan.Dimensions(Vary) && plan.control == plan.Dimensions(Control)
    ensures plan.blockBy == plan.Dimensions(Block) && plan.waivers.Keys == plan.Dimensions(Waiver)
  {}

  lemma {:induction false} FourRoles(
      l: Record, r: Record, plan: Plan, a: seq<Issue>, b: seq<Issue>, c: seq<Issue>, d: seq<Issue>)
    requires (a == []) == RoleOk(l, r, plan, Vary)
    requires (b == []) == RoleOk(l, r, plan, Control)
    requires (c == []) == RoleOk(l, r, plan, Block)
    requires (d == []) == RoleOk(l, r, plan, Waiver)
    ensures (a + b + c + d == []) == DeclarationsOk(l, r, plan)
  {
    assert |a + b + c + d| == |a| + |b| + |c| + |d|;
    if DeclarationsOk(l, r, plan) { assert a + b + c + d == []; }
  }

  lemma {:induction false} PathsCoverLeaves(plan: Plan, l: LeafSet, r: LeafSet, paths: seq<string>)
    requires forall p :: p in paths <==> p in PathSet(l) + PathSet(r)
    ensures LeafIssues(plan, l, r, paths) == [] <==> LeavesOk(plan, l, r)
  {
    LeafIssuesEmpty(plan, l, r, paths);
    forall p | p !in paths ensures LeafOk(plan, l, r, p) {
      assert p !in PathSet(l) && p !in PathSet(r);
      assert forall x :: (p, x) in l ==> (p, x).0 in PathSet(l);
      assert forall x :: (p, x) in r ==> (p, x).0 in PathSet(r);
    }
  }

  lemma {:induction false} LeafFindingsEmpty(l: Record, r: Record, plan: Plan, issues: seq<Issue>, waived: seq<Issue>)
    requires LeafFindings(l, r, plan, issues, waived)
    ensures issues == [] <==>
      UnambiguousRecord(l) && UnambiguousRecord(r) && LeavesOk(plan, VisibleLeaves(l), VisibleLeaves(r))
  {
    ProjectionIsVisibility(l);
    ProjectionIsVisibility(r);
    PathsCoverLeaves(plan, VisibleLeaves(l), VisibleLeaves(r), AllPaths(l, r));
  }

  /** `issues` is empty exactly when statuses, declarations, key spaces and leaves are all in order. */
  lemma {:induction false} IssuesEmptyIffIssueFree(l: Record, r: Record, plan: Plan, issues: seq<Issue>)
    requires IsReport(l, r, plan, issues)
    ensures issues == [] <==> IssueFree(l, r, plan)
  {
    var leafIssues, waived :|
      LeafFindings(l, r, plan, leafIssues, waived)
      && issues == StatusIssues(l, r) + DeclarationIssues(l, r, plan) + leafIssues;
    DeclarationIssuesEmpty(l, r, plan);
    LeafFindingsEmpty(l, r, plan, leafIssues, waived);
  }

  // ----- which waived differences a report keeps -----

  /** Both sides hold something different at `p`, and a waiver is the most specific declaration for it. */
  ghost predicate IsWaived(plan: Plan, l: LeafSet, r: LeafSet, p: string, issue: Issue) {
    && SideAt(l, p).Present? && SideAt(r, p).Present? && SideAt(l, p) != SideAt(r, p)
    && exists d :: MostSpecific(plan, p, Waiver, d) && d in plan.waivers
         && issue == Issue(p, Shown(SideAt(l, p).value), Shown(SideAt(r, p).value), WaivedBecause(plan.waivers[d]))
  }

  lemma {:induction false} WaivedLeaf(plan: Plan, l: LeafSet, r: LeafSet, p: string, issue: Issue)
    requires Accepted(plan)
    ensures IsWaived(plan, l, r, p, issue) <==>
      SideAt(l, p) != SideAt(r, p) && issue in LeafWaiver(plan, RoleOf(plan, p), p, SideAt(l, p), SideAt(r, p))
  {
    forall d | MostSpecific(plan, p, Waiver, d) ensures RoleOf(plan, p) == Direct(Waiver, d) {
      RoleIsUnique(plan, p, RoleOf(plan, p), Direct(Waiver, d));
    }
  }

  lemma {:induction false} WaivedAmong(plan: Plan, l: LeafSet, r: LeafSet, paths: seq<string>, issue: Issue)
    requires Accepted(plan)
    ensures issue in WaivedLeaves(plan, l, r, paths) <==> exists p :: p in paths && IsWaived(plan, l, r, p, issue)
  {
    if paths != [] {
      var last, front := paths[|paths| - 1], paths[..|paths| - 1];
      WaivedAmong(plan, l, r, front, issue);
      WaivedLeaf(plan, l, r, last, issue);
      assert paths == front + [last];
      assert forall p :: p in paths <==> p in front || p == last;
    }
  }

  lemma {:induction false} PresentIsPath(r: Record, p: string)
    requires SideAt(VisibleLeaves(r), p).Present?
    ensures p in PathSet(RecordLeaves(r))
  {
    ProjectionIsVisibility(r);
    var x :| (p, x) in VisibleLeaves(r);
    assert (p, x).0 in PathSet(RecordLeaves(r));
  }

  lemma {:induction false} PresentIsListed(l: Record, r: Record, p: string)
    requires SideAt(VisibleLeaves(l), p).Present? || SideAt(VisibleLeaves(r), p).Present?
    ensures p in AllPaths(l, r)
  {
    if SideAt(VisibleLeaves(l), p).Present? { PresentIsPath(l, p); } else { PresentIsPath(r, p); }
  }

  /**
   * What a report keeps as waived: of two unambiguous records, exactly the leaves that are present and different on
   * both sides under a direct waiver, each with that waiver's reason; of any others, nothing.
   */
  lemma {:induction false} WaivedExactly(l: Record, r: Record, plan: Plan, issues: seq<Issue>, waived: seq<Issue>)
    requires Accepted(plan) && LeafFindings(l, r, plan, issues, waived)
    ensures UnambiguousRecord(l) && UnambiguousRecord(r) ==>
      forall issue :: issue in waived <==> IsWaived(plan, VisibleLeaves(l), VisibleLeaves(r), issue.dimension, issue)
    ensures !UnambiguousRecord(l) || !UnambiguousRecord(r) ==> waived == []
  {
    if UnambiguousRecord(l) && UnambiguousRecord(r) {
      ProjectionIsVisibility(l);
      ProjectionIsVisibility(r);
      var left, right := VisibleLeaves(l), VisibleLeaves(r);
      forall issue ensures issue in waived <==> IsWaived(plan, left, right, issue.dimension, issue) {
        WaivedAmong(plan, left, right, AllPaths(l, r), issue);
        if IsWaived(plan, left, right, issue.dimension, issue) { PresentIsListed(l, r, issue.dimension); }
      }
    }
  }

  /** No leaf is kept twice. */
  lemma {:induction false} WaivedOnce(plan: Plan, l: LeafSet, r: LeafSet, paths: seq<string>, a: nat, b: nat)
    requires Accepted(plan)
    requires forall i, j :: 0 <= i < j < |paths| ==> paths[i] != paths[j]
    requires a < b < |WaivedLeaves(plan, l, r, paths)|
    ensures WaivedLeaves(plan, l, r, paths)[a] != WaivedLeaves(plan, l, r, paths)[b]
  {
    var last, front := paths[|paths| - 1], paths[..|paths| - 1];
    var before := WaivedLeaves(plan, l, r, front);
    if b < |before| {
      WaivedOnce(plan, l, r, front, a, b);
    } else {
      var first := before[a];
      WaivedAmong(plan, l, r, front, first);
      assert first in before;
      var p :| p in front && IsWaived(plan, l, r, p, first);
      WaivedLeaf(plan, l, r, last, WaivedLeaves(plan, l, r, paths)[b]);
      assert WaivedLeaves(plan, l, r, paths)[b].dimension == last;
    }
  }

  // ----- which issues a report holds -----

  ghost predicate IsStatusIssue(l: Record, r: Record, issue: Issue) {
    && (l.status != Completed || r.status != Completed)
    && issue == Issue("status", StatusName(l.status), StatusName(r.status), NotCompleted)
  }

  ghost predicate ShowsLookup(x: Lookup, shown: Shown) {
    if x.Found? then shown == Shown(x.value) else shown == MissingLabel
  }

  ghost predicate ShowsSide(x: Side, shown: Shown) {
    if x.Present? then shown == Shown(x.value) else shown == MissingLabel
  }

  /** A declared dimension that one record does not have, or that the role demands to be equal and is not. */
  ghost predicate IsDeclaredIssue(l: Record, r: Record, plan: Plan, role: Role, issue: Issue) {
    var a, b := ResolveDimension(l, issue.dimension), ResolveDimension(r, issue.dimension);
    issue.dimension in plan.Dimensions(role) &&
    match issue.reason
    case UnknownDeclaration(named) =>
      named == role && (a.UnknownDimension? || b.UnknownDimension?) && issue.left == NoValue && issue.right == NoValue
    case RequiredMissing(named) =>
      && named == role && !a.UnknownDimension? && !b.UnknownDimension? && (a.Missing? || b.Missing?)
      && ShowsLookup(a, issue.left) && ShowsLookup(b, issue.right)
    case ControlDiffers =>
      && role == Control && a.Found? && b.Found? && a.value != b.value
      && issue.left == Shown(a.value) && issue.right == Shown(b.value)
    case BlocksDiffer =>
      && role == Block && a.Found? && b.Found? && a.value != b.value
      && issue.left == Shown(a.value) && issue.right == Shown(b.value)
    case _ => false
  }

  /** A leaf that differs with nothing declared about it, and what its requested dimension says of it. */
  ghost predicate IsLeafIssue(plan: Plan, l: LeafSet, r: LeafSet, issue: Issue) {
    var p := issue.dimension;
    var a, b := SideAt(l, p), SideAt(r, p);
    a != b && !Declared(plan, p) && ShowsSide(a, issue.left) && ShowsSide(b, issue.right) &&
    match issue.reason
    case Undeclared => !Downstream(plan.vary, p) && !Downstream(plan.control, p) && !Downstream(plan.blockBy, p)
    case RequiredMissing(role) => role != Waiver && Downstream(plan.Dimensions(role), p) && (a.Absent? || b.Absent?)
    case ControlDiffers => Downstream(plan.control, p) && a.Present? && b.Present?
    case BlocksDiffer => Downstream(plan.blockBy, p) && a.Present? && b.Present?
    case _ => false
  }

  lemma {:induction false} DeclaredIssueIs(l: Record, r: Record, plan: Plan, role: Role, d: string, issue: Issue)
    requires d in plan.Dimensions(role)
    ensures DeclaredIssue(l, r, d, role) == Some(issue) <==>
      issue.dimension == d && IsDeclaredIssue(l, r, plan, role, issue)
  {}

  lemma {:induction false} DeclaredAmong(
      l: Record, r: Record, plan: Plan, role: Role, dims: seq<string>, issue: Issue)
    requires forall d :: d in dims ==> d in plan.Dimensions(role)
    ensures issue in DeclaredIssues(l, r, role, dims) <==>
      issue.dimension in dims && IsDeclaredIssue(l, r, plan, role, issue)
  {
    if dims != [] {
      var last, front := dims[|dims| - 1], dims[..|dims| - 1];
      DeclaredAmong(l, r, plan, role, front, issue);
      DeclaredIssueIs(l, r, plan, role, last, issue);
      assert dims == front + [last];
    }
  }

  lemma {:induction false} DeclaredOf(l: Record, r: Record, plan: Plan, role: Role, dims: set<string>, issue: Issue)
    requires dims == plan.Dimensions(role)
    ensures issue in DeclaredIssues(l, r, role, Sorted(dims)) <==> IsDeclaredIssue(l, r, plan, role, issue)
  {
    DeclaredAmong(l, r, plan, role, Sorted(dims), issue);
  }

  lemma {:induction false} DeclarationsHold(l: Record, r: Record, plan: Plan, issue: Issue)
    ensures issue in DeclarationIssues(l, r, plan) <==> exists role :: IsDeclaredIssue(l, r, plan, role, issue)
  {
    DimensionsOf(plan);
    DeclaredOf(l, r, plan, Vary, plan.vary, issue);
    DeclaredOf(l, r, plan, Control, plan.control, issue);
    DeclaredOf(l, r, plan, Block, plan.blockBy, issue);
    DeclaredOf(l, r, plan, Waiver, plan.waivers.Keys, issue);
    forall role | IsDeclaredIssue(l, r, plan, role, issue) ensures issue in DeclarationIssues(l, r, plan) {
      match role case Vary => case Control => case Block => case Waiver =>
    }
  }

  lemma {:induction false} LeafIssueIs(plan: Plan, l: LeafSet, r: LeafSet, p: string, issue: Issue)
    requires Accepted(plan) && SideAt(l, p) != SideAt(r, p)
    ensures issue in LeafIssue(RoleOf(plan, p), p, SideAt(l, p), SideAt(r, p)) <==>
      issue.dimension == p && IsLeafIssue(plan, l, r, issue)
  {
    var m := RoleOf(plan, p);
    RoleReads(plan, p, m);
    DimensionsOf(plan);
    if !m.Direct? { DownstreamRole(plan, p, m); }
  }

  lemma {:induction false} LeavesAmong(plan: Plan, l: LeafSet, r: LeafSet, paths: seq<string>, issue: Issue)
    requires Accepted(plan)
    ensures issue in LeafIssues(plan, l, r, paths) <==> issue.dimension in paths && IsLeafIssue(plan, l, r, issue)
  {
    if paths != [] {
      var last, front := paths[|paths| - 1], paths[..|paths| - 1];
      LeavesAmong(plan, l, r, front, issue);
      if SideAt(l, last) != SideAt(r, last) { LeafIssueIs(plan, l, r, last, issue); }
      assert paths == front + [last];
    }
  }

  /** The issues that the evidence leaves raise: of two unambiguous records, those of the leaves. */
  ghost predicate IsEvidenceIssue(l: Record, r: Record, plan: Plan, ambiguous: string, issue: Issue) {
    if UnambiguousRecord(l) && UnambiguousRecord(r) then IsLeafIssue(plan, VisibleLeaves(l), VisibleLeaves(r), issue)
    else issue == Issue(ambiguous, NoValue, NoValue, AmbiguousEvidence)
  }

  /** `path` is ambiguous in the first record that is. */
  ghost predicate AmbiguousFirst(l: Record, r: Record, path: string) {
    AmbiguousAt(Map(Roots(if UnambiguousRecord(l) then r else l)), "", path)
  }

  lemma {:induction false} EvidenceIssues(
      l: Record, r: Record, plan: Plan, issues: seq<Issue>, waived: seq<Issue>) returns (path: string)
    requires Accepted(plan) && LeafFindings(l, r, plan, issues, waived)
    ensures !UnambiguousRecord(l) || !UnambiguousRecord(r) ==> AmbiguousFirst(l, r, path)
    ensures forall issue :: issue in issues <==> IsEvidenceIssue(l, r, plan, path, issue)
  {
    path := "";
    if !UnambiguousRecord(l) {
      path :| AmbiguousAt(Map(Roots(l)), "", path) && issues == [AmbiguityIssue(path)];
    } else if !UnambiguousRecord(r) {
      path :| AmbiguousAt(Map(Roots(r)), "", path) && issues == [AmbiguityIssue(path)];
    } else {
      ProjectionIsVisibility(l);
      ProjectionIsVisibility(r);
      var left, right := VisibleLeaves(l), VisibleLeaves(r);
      forall issue ensures issue in issues <==> IsLeafIssue(plan, left, right, issue) {
        LeavesAmong(plan, left, right, AllPaths(l, r), issue);
        if IsLeafIssue(plan, left, right, issue) { PresentIsListed(l, r, issue.dimension); }
      }
    }
  }

  ghost predicate IsReportIssue(l: Record, r: Record, plan: Plan, ambiguous: string, issue: Issue) {
    || IsStatusIssue(l, r, issue)
    || (exists role :: IsDeclaredIssue(l, r, plan, role, issue))
    || IsEvidenceIssue(l, r, plan, ambiguous, issue)
  }

  ghost predicate IssuesAre(l: Record, r: Record, plan: Plan, ambiguous: string, issues: seq<Issue>) {
    forall issue :: issue in issues <==> IsReportIssue(l, r, plan, ambiguous, issue)
  }

  /**
   * What a report holds: the issue about statuses, an issue for each declared dimension that is unknown, missing or
   * unequal where it must be equal, and one for each undeclared leaf that differs, with the values shown on each side;
   * of an ambiguous record, instead of leaves, one ambiguous path.
   */
  lemma {:induction false} IssuesExactly(l: Record, r: Record, plan: Plan, issues: seq<Issue>)
    requires Accepted(plan) && IsReport(l, r, plan, issues)
    ensures exists path ::
      && (!UnambiguousRecord(l) || !UnambiguousRecord(r) ==> AmbiguousFirst(l, r, path))
      && IssuesAre(l, r, plan, path, issues)
  {
    var leafIssues, waived :|
      LeafFindings(l, r, plan, leafIssues, waived)
      && issues == StatusIssues(l, r) + DeclarationIssues(l, r, plan) + leafIssues;
    var path := EvidenceIssues(l, r, plan, leafIssues, waived);
    IssuesTogether(l, r, plan, path, leafIssues);
  }

  lemma {:induction false} IssuesTogether(l: Record, r: Record, plan: Plan, path: string, leafIssues: seq<Issue>)
    requires forall issue :: issue in leafIssues <==> IsEvidenceIssue(l, r, plan, path, issue)
    ensures IssuesAre(l, r, plan, path, StatusIssues(l, r) + DeclarationIssues(l, r, plan) + leafIssues)
  {
    var all := StatusIssues(l, r) + DeclarationIssues(l, r, plan) + leafIssues;
    forall issue ensures (issue in all) == IsReportIssue(l, r, plan, path, issue) {
      InThree(l, r, plan, path, leafIssues, issue);
    }
  }

  lemma {:induction false} StatusIssueIs(l: Record, r: Record, issue: Issue)
    ensures (issue in StatusIssues(l, r)) == IsStatusIssue(l, r, issue)
  {}

  lemma {:induction false} InThree(
      l: Record, r: Record, plan: Plan, path: string, leafIssues: seq<Issue>, issue: Issue)
    requires (issue in leafIssues) == IsEvidenceIssue(l, r, plan, path, issue)
    ensures (issue in StatusIssues(l, r) + DeclarationIssues(l, r, plan) + leafIssues)
         == IsReportIssue(l, r, plan, path, issue)
  {
    StatusIssueIs(l, r, issue);
    DeclarationsHold(l, r, plan, issue);
    InOneOf(StatusIssues(l, r), DeclarationIssues(l, r, plan), leafIssues, issue);
  }

  lemma {:induction false} InOneOf(a: seq<Issue>, b: seq<Issue>, c: seq<Issue>, issue: Issue)
    ensures issue in a + b + c <==> issue in a || issue in b || issue in c
  {}

  // ----- leaves of one record never sit above one another -----

  lemma {:induction false} VisibleAntichain(r: Record, a: (string, Value), b: (string, Value))
    requires UnambiguousRecord(r) && a in VisibleLeaves(r) && b in VisibleLeaves(r) && PathCovers(a.0, b.0)
    ensures a == b
  {
    ProjectionIsVisibility(r);
    RootsNotEmpty(r);
    LeavesAntichain(Map(Roots(r)), "", a, b);
  }

  lemma {:induction false} SideIsLeaf(r: Record, leaf: (string, Value))
    requires UnambiguousRecord(r) && leaf in VisibleLeaves(r)
    ensures SideAt(VisibleLeaves(r), leaf.0) == Present(leaf.1)
  {
    RecordIsSingleValued(r, leaf.0);
    SideOfLeaf(VisibleLeaves(r), leaf);
  }

  lemma {:induction false} SideOfLeaf(leaves: LeafSet, leaf: (string, Value))
    requires leaf in leaves && SingleValued(leaves, leaf.0)
    ensures SideAt(leaves, leaf.0) == Present(leaf.1)
  {
    assert (leaf.0, leaf.1) in leaves;
    var x :| (leaf.0, x) in leaves && SideAt(leaves, leaf.0) == Present(x);
  }

  /** A path has at most one value. */
  ghost predicate SingleValued(leaves: LeafSet, p: string) {
    forall x, y :: (p, x) in leaves && (p, y) in leaves ==> x == y
  }

  lemma {:induction false} RecordIsSingleValued(r: Record, p: string)
    requires UnambiguousRecord(r)
    ensures SingleValued(VisibleLeaves(r), p)
  {
    forall x, y | (p, x) in VisibleLeaves(r) && (p, y) in VisibleLeaves(r) ensures x == y {
      VisibleAntichain(r, (p, x), (p, y));
    }
  }

  /** Two leaf sets that hold the same at a path show the same side there. */
  lemma {:induction false} SharedSide(l: LeafSet, r: LeafSet, p: string)
    requires SingleValued(l, p) && forall x :: (p, x) in l <==> (p, x) in r
    ensures SideAt(l, p) == SideAt(r, p)
  {
    if x :| (p, x) in l {
      assert (p, x) in r;
      var y :| (p, y) in r && SideAt(r, p) == Present(y);
      assert (p, y) in l;
    }
  }

  lemma {:induction false} NothingBelowALeaf(r: Record, above: string, p: string)
    requires UnambiguousRecord(r) && SideAt(VisibleLeaves(r), above).Present?
    requires PathCovers(above, p) && above != p
    ensures SideAt(VisibleLeaves(r), p) == Absent
  {
    var x :| (above, x) in VisibleLeaves(r);
    if y :| (p, y) in VisibleLeaves(r) {
      VisibleAntichain(r, (above, x), (p, y));
    }
  }

  // ----- skipping a checked control or block loses nothing -----

  ghost predicate Held(m: RoleMatch) {
    m.Direct? && m.role in {Control, Block}
  }

  /** The lookup of `d` cannot see past the projection: it is not exposed, or both records spell special keys singly. */
  ghost predicate Sheltered(l: Record, r: Record, d: string) {
    || (ResolveDimension(l, d).Found? ==> !Exposed(d, ResolveDimension(l, d).value))
    || (RegularRecord(l) && RegularRecord(r))
  }

  ghost predicate ShelteredPlan(l: Record, r: Record, plan: Plan) {
    forall d :: d in plan.control + plan.blockBy ==> Sheltered(l, r, d)
  }

  /** Where an issue-free comparison skips a leaf under a control or block declaration, the two sides agree on it. */
  lemma {:induction false} SkipLosesNothing(l: Record, r: Record, plan: Plan, p: string)
    requires Accepted(plan) && ShelteredPlan(l, r, plan) && IssueFree(l, r, plan)
    requires Held(RoleOf(plan, p))
    ensures SideAt(VisibleLeaves(l), p) == SideAt(VisibleLeaves(r), p)
    decreases |RoleOf(plan, p).declaration|, 1
  {
    var d := RoleOf(plan, p).declaration;
    HeldDimensionAgrees(l, r, plan, p);
    HeldIsSheltered(l, r, plan, p);
    CoherentUnlessLeafAbove(l, r, d);
    if Under(VisibleLeaves(l), d) == Under(VisibleLeaves(r), d) {
      SameUnderSameSide(l, r, d, p);
    } else {
      var above :| LeafAbove(l, r, d, above);
      LeafAboveHeld(l, r, plan, p, above);
    }
  }

  lemma {:induction false} HeldIsSheltered(l: Record, r: Record, plan: Plan, p: string)
    requires ShelteredPlan(l, r, plan) && Held(RoleOf(plan, p))
    ensures Sheltered(l, r, RoleOf(plan, p).declaration)
  {
    var m := RoleOf(plan, p);
    assert MostSpecific(plan, p, m.role, m.declaration);
  }

  ghost predicate LeafAbove(l: Record, r: Record, d: string, above: string) {
    && PathCovers(above, d) && above != d
    && (SideAt(VisibleLeaves(l), above).Present? || SideAt(VisibleLeaves(r), above).Present?)
  }

  lemma {:induction false} AncestorIsLeaf(leaves: LeafSet, d: string)
    requires ThroughSequence(leaves, d)
    ensures exists above :: PathCovers(above, d) && above != d && SideAt(leaves, above).Present?
  {
    var leaf :| OpaqueAncestor(leaves, d, leaf);
    assert (leaf.0, leaf.1) in leaves;
    assert PathCovers(leaf.0, d) && SideAt(leaves, leaf.0).Present?;
  }

  lemma {:induction false} ShelteredAgree(l: Record, r: Record, d: string, w: Value)
    requires UnambiguousRecord(l) && UnambiguousRecord(r) && Sheltered(l, r, d)
    requires ResolveDimension(l, d) == Found(w) && ResolveDimension(r, d) == Found(w)
    ensures Under(VisibleLeaves(l), d) == Under(VisibleLeaves(r), d)
      || ThroughSequence(VisibleLeaves(l), d)
      || ThroughSequence(VisibleLeaves(r), d)
  {
    if Exposed(d, w) { CoherentDimension(l, r, d, w); } else { UnexposedAgree(l, r, d, w); }
  }

  lemma {:induction false} CoherentUnlessLeafAbove(l: Record, r: Record, d: string)
    requires UnambiguousRecord(l) && UnambiguousRecord(r) && Sheltered(l, r, d)
    requires ResolveDimension(l, d).Found? && ResolveDimension(l, d) == ResolveDimension(r, d)
    ensures Under(VisibleLeaves(l), d) == Under(VisibleLeaves(r), d) || exists above :: LeafAbove(l, r, d, above)
  {
    ShelteredAgree(l, r, d, ResolveDimension(l, d).value);
    LeavesAbove(l, r, d, VisibleLeaves(l), VisibleLeaves(r));
  }

  lemma {:induction false} LeavesAbove(l: Record, r: Record, d: string, left: LeafSet, right: LeafSet)
    requires left == VisibleLeaves(l) && right == VisibleLeaves(r)
    ensures ThroughSequence(left, d) || ThroughSequence(right, d) ==> exists above :: LeafAbove(l, r, d, above)
  {
    if ThroughSequence(left, d) {
      AncestorIsLeaf(left, d);
      var above :| PathCovers(above, d) && above != d && SideAt(left, above).Present?;
      assert LeafAbove(l, r, d, above);
    }
    if ThroughSequence(right, d) {
      AncestorIsLeaf(right, d);
      var above :| PathCovers(above, d) && above != d && SideAt(right, above).Present?;
      assert LeafAbove(l, r, d, above);
    }
  }

  lemma {:induction false} HeldDimensionAgrees(l: Record, r: Record, plan: Plan, p: string)
    requires DeclarationsOk(l, r, plan) && Held(RoleOf(plan, p))
    ensures PathCovers(RoleOf(plan, p).declaration, p)
    ensures ResolveDimension(l, RoleOf(plan, p).declaration).Found?
    ensures ResolveDimension(l, RoleOf(plan, p).declaration) == ResolveDimension(r, RoleOf(plan, p).declaration)
  {
    var m := RoleOf(plan, p);
    assert MostSpecific(plan, p, m.role, m.declaration);
    assert RoleOk(l, r, plan, m.role);
    assert DeclaredOk(l, r, m.role, m.declaration);
  }

  lemma {:induction false} SameUnderSameSide(l: Record, r: Record, d: string, p: string)
    requires UnambiguousRecord(l) && UnambiguousRecord(r)
    requires Under(VisibleLeaves(l), d) == Under(VisibleLeaves(r), d) && PathCovers(d, p)
    ensures SideAt(VisibleLeaves(l), p) == SideAt(VisibleLeaves(r), p)
  {
    SharedUnder(VisibleLeaves(l), VisibleLeaves(r), d, p);
    RecordIsSingleValued(l, p);
    SharedSide(VisibleLeaves(l), VisibleLeaves(r), p);
  }

  lemma {:induction false} SharedUnder(l: LeafSet, r: LeafSet, d: string, p: string)
    requires Under(l, d) == Under(r, d) && PathCovers(d, p)
    ensures forall x :: (p, x) in l <==> (p, x) in r
  {
    forall x ensures (p, x) in l <==> (p, x) in r {
      assert (p, x) in l <==> (p, x) in Under(l, d);
      assert (p, x) in r <==> (p, x) in Under(r, d);
    }
  }

  /** A leaf strictly above the declaration on one side is, by induction, on both; nothing then lies below it. */
  lemma {:induction false} LeafAboveHeld(l: Record, r: Record, plan: Plan, p: string, above: string)
    requires Accepted(plan) && ShelteredPlan(l, r, plan) && IssueFree(l, r, plan)
    requires Held(RoleOf(plan, p))
    requires LeafAbove(l, r, RoleOf(plan, p).declaration, above)
    ensures SideAt(VisibleLeaves(l), p) == SideAt(VisibleLeaves(r), p) == Absent
    decreases |RoleOf(plan, p).declaration|, 0
  {
    var d := RoleOf(plan, p).declaration;
    var m := RoleOf(plan, above);
    assert LeafOk(plan, VisibleLeaves(l), VisibleLeaves(r), above);
    RoleReads(plan, above, m);
    if m.Direct? {
      CoversTransitive(m.declaration, above, d);
      CoveringDeclarationsAgree(plan, d, m.role, m.declaration, RoleOf(plan, p).role, d);
      SkipLosesNothing(l, r, plan, above);
    }
    CoversTransitive(above, d, p);
    if above == p { CoversAntisymmetric(above, d); }
    NothingBelowALeaf(l, above, p);
    NothingBelowALeaf(r, above, p);
  }

  // ----- exactness -----

  /** A difference at a leaf is deliberate: varied, waived, or evidence of a varied dimension that both sides hold. */
  ghost predicate LeafExplained(plan: Plan, l: LeafSet, r: LeafSet, p: string) {
    || SideAt(l, p) == SideAt(r, p)
    || Covered(plan.vary, p)
    || Covered(plan.waivers.Keys, p)
    || (!Declared(plan, p) && Downstream(plan.vary, p) && SideAt(l, p).Present? && SideAt(r, p).Present?)
  }

  ghost predicate LeavesExplained(plan: Plan, l: LeafSet, r: LeafSet) {
    forall p :: LeafExplained(plan, l, r, p)
  }

  ghost predicate Explained(l: Record, r: Record, plan: Plan) {
    && l.status == Completed && r.status == Completed
    && DeclarationsOk(l, r, plan)
    && UnambiguousRecord(l) && UnambiguousRecord(r)
    && LeavesExplained(plan, VisibleLeaves(l), VisibleLeaves(r))
  }

  lemma {:induction false} IssueFreeIsExplained(l: Record, r: Record, plan: Plan)
    requires Accepted(plan) && ShelteredPlan(l, r, plan)
    ensures IssueFree(l, r, plan) <==> Explained(l, r, plan)
  {
    if IssueFree(l, r, plan) {
      forall p | Held(RoleOf(plan, p)) ensures SideAt(VisibleLeaves(l), p) == SideAt(VisibleLeaves(r), p) {
        SkipLosesNothing(l, r, plan, p);
      }
    }
    OkAndHeldIsExplained(plan, VisibleLeaves(l), VisibleLeaves(r));
  }

  /**
   * Fail-closed exactness: no issue is reported if and only if every leaf is equal, covered by a varied or waived
   * dimension, or, with nothing declared about it, downstream evidence of a varied dimension that both sides hold.
   */
  lemma {:induction false} FailClosedExactly(l: Record, r: Record, plan: Plan, issues: seq<Issue>)
    requires Accepted(plan) && ShelteredPlan(l, r, plan) && IsReport(l, r, plan, issues)
    ensures issues == [] <==> Explained(l, r, plan)
  {
    IssuesEmptyIffIssueFree(l, r, plan, issues);
    IssueFreeIsExplained(l, r, plan);
  }

  lemma {:induction false} DeclaredInOneRole(plan: Plan, p: string, m: RoleMatch)
    requires Accepted(plan) && RoleIs(plan, p, m)
    ensures Covered(plan.vary, p) || Covered(plan.waivers.Keys, p) <==> m.Direct? && m.role in {Vary, Waiver}
  {
    RoleReads(plan, p, m);
    DimensionsOf(plan);
    if Covered(plan.Dimensions(Vary), p) { assert m.role == Vary; }
    if Covered(plan.Dimensions(Waiver), p) { assert m.role == Waiver; }
  }

  lemma {:induction false} OkAndHeldIsExplained(plan: Plan, l: LeafSet, r: LeafSet)
    requires Accepted(plan)
    ensures LeavesExplained(plan, l, r) <==>
      LeavesOk(plan, l, r) && forall p :: Held(RoleOf(plan, p)) ==> SideAt(l, p) == SideAt(r, p)
  {
    forall p
      ensures LeafExplained(plan, l, r, p) <==>
        LeafOk(plan, l, r, p) && (Held(RoleOf(plan, p)) ==> SideAt(l, p) == SideAt(r, p))
    {
      RoleReads(plan, p, RoleOf(plan, p));
      DeclaredInOneRole(plan, p, RoleOf(plan, p));
    }
    if LeavesExplained(plan, l, r) {
      forall p ensures LeafOk(plan, l, r, p) && (Held(RoleOf(plan, p)) ==> SideAt(l, p) == SideAt(r, p)) {
        assert LeafExplained(plan, l, r, p);
      }
    }
  }

  // ----- being issue-free is an equivalence -----

  /** What a plan keeps of a record: control and block values, unassigned leaves, and where inherited ones are. */
  datatype Kept = Kept(
    values: map<string, Lookup>, leaves: iset<(string, Side)>, inherited: iset<string>)

  ghost function KeptValues(plan: Plan, r: Record): map<string, Lookup> {
    map d | d in plan.control + plan.blockBy :: ResolveDimension(r, d)
  }

  ghost function Canonical(plan: Plan, r: Record): Kept {
    var leaves := VisibleLeaves(r);
    Kept(
      KeptValues(plan, r),
      iset p, s | KeptLeaf(plan, p) && s == SideAt(leaves, p) :: (p, s),
      iset p | MaskedLeaf(plan, p) && SideAt(leaves, p).Present?)
  }

  ghost predicate KeptLeaf(plan: Plan, p: string) {
    !Declared(plan, p) && !Downstream(plan.vary, p)
  }

  ghost predicate MaskedLeaf(plan: Plan, p: string) {
    !Declared(plan, p) && Downstream(plan.vary, p)
  }

  /** Completed, unambiguous, and every declaration resolves. */
  ghost predicate Ready(plan: Plan, r: Record) {
    r.status == Completed && UnambiguousRecord(r) && Resolvable(plan, r)
  }

  ghost predicate Resolvable(plan: Plan, r: Record) {
    forall role, d :: d in plan.Dimensions(role) ==> ResolveDimension(r, d).Found?
  }

  ghost predicate SameKeptLeaves(plan: Plan, l: LeafSet, r: LeafSet) {
    && (forall p :: KeptLeaf(plan, p) ==> SideAt(l, p) == SideAt(r, p))
    && (forall p :: MaskedLeaf(plan, p) ==> (SideAt(l, p).Present? <==> SideAt(r, p).Present?))
  }

  lemma {:induction false} CanonicalAgreement(plan: Plan, l: Record, r: Record)
    ensures Canonical(plan, l) == Canonical(plan, r) <==>
      KeptValues(plan, l) == KeptValues(plan, r) && SameKeptLeaves(plan, VisibleLeaves(l), VisibleLeaves(r))
  {
    var a, b := Canonical(plan, l), Canonical(plan, r);
    if a == b {
      forall p | KeptLeaf(plan, p) ensures SideAt(VisibleLeaves(l), p) == SideAt(VisibleLeaves(r), p) {
        assert (p, SideAt(VisibleLeaves(l), p)) in a.leaves;
        assert (p, SideAt(VisibleLeaves(l), p)) in b.leaves;
      }
      forall p | MaskedLeaf(plan, p)
        ensures SideAt(VisibleLeaves(l), p).Present? <==> SideAt(VisibleLeaves(r), p).Present?
      {
        assert p in a.inherited <==> p in b.inherited;
      }
    }
  }

  lemma {:induction false} LeavesOkByRole(plan: Plan, l: LeafSet, r: LeafSet)
    ensures LeavesOk(plan, l, r) <==> SameKeptLeaves(plan, l, r)
  {
    forall p
      ensures LeafOk(plan, l, r, p) <==>
        && (KeptLeaf(plan, p) ==> SideAt(l, p) == SideAt(r, p))
        && (MaskedLeaf(plan, p) ==> (SideAt(l, p).Present? <==> SideAt(r, p).Present?))
    {
    }
    if LeavesOk(plan, l, r) {
      forall p
        ensures KeptLeaf(plan, p) ==> SideAt(l, p) == SideAt(r, p)
        ensures MaskedLeaf(plan, p) ==> (SideAt(l, p).Present? <==> SideAt(r, p).Present?)
      {
        assert LeafOk(plan, l, r, p);
      }
    }
  }

  lemma {:induction false} DeclarationsOkByValue(plan: Plan, l: Record, r: Record)
    requires Resolvable(plan, l) && Resolvable(plan, r)
    ensures DeclarationsOk(l, r, plan) <==> KeptValues(plan, l) == KeptValues(plan, r)
  {
    RoleOkByValue(plan, l, r, Vary);
    RoleOkByValue(plan, l, r, Control);
    RoleOkByValue(plan, l, r, Block);
    RoleOkByValue(plan, l, r, Waiver);
    KeptValuesByRole(plan, l, r);
  }

  ghost predicate SameValues(l: Record, r: Record, dims: set<string>) {
    forall d :: d in dims ==> ResolveDimension(l, d) == ResolveDimension(r, d)
  }

  lemma {:induction false} RoleOkByValue(plan: Plan, l: Record, r: Record, role: Role)
    requires Resolvable(plan, l) && Resolvable(plan, r)
    ensures RoleOk(l, r, plan, role) <==> (role in {Control, Block} ==> SameValues(l, r, plan.Dimensions(role)))
  {
    if RoleOk(l, r, plan, role) {
      forall d | d in plan.Dimensions(role)
        ensures role in {Control, Block} ==> ResolveDimension(l, d) == ResolveDimension(r, d)
      {
        assert DeclaredOk(l, r, role, d);
      }
    }
  }

  lemma {:induction false} KeptValuesByRole(plan: Plan, l: Record, r: Record)
    ensures KeptValues(plan, l) == KeptValues(plan, r) <==>
      SameValues(l, r, plan.control) && SameValues(l, r, plan.blockBy)
  {
    var kl, kr := KeptValues(plan, l), KeptValues(plan, r);
    if kl == kr {
      forall d | d in plan.control || d in plan.blockBy ensures ResolveDimension(l, d) == ResolveDimension(r, d) {
        assert d in kl && kl[d] == kr[d];
      }
    }
  }

  /** Under a fixed plan, two ready records are issue-free together exactly when their canonical forms are equal. */
  lemma {:induction false} IssueFreeIsCanonicalEquality(plan: Plan, l: Record, r: Record)
    requires Ready(plan, l) && Ready(plan, r)
    ensures IssueFree(l, r, plan) <==> Canonical(plan, l) == Canonical(plan, r)
  {
    CanonicalAgreement(plan, l, r);
    DeclarationsOkByValue(plan, l, r);
    LeavesOkByRole(plan, VisibleLeaves(l), VisibleLeaves(r));
  }

  lemma {:induction false} IssueFreeIsEquivalence(plan: Plan, a: Record, b: Record, c: Record)
    requires Ready(plan, a) && Ready(plan, b) && Ready(plan, c)
    ensures IssueFree(a, a, plan)
    ensures IssueFree(a, b, plan) ==> IssueFree(b, a, plan)
    ensures IssueFree(a, b, plan) && IssueFree(b, c, plan) ==> IssueFree(a, c, plan)
  {
    IssueFreeIsCanonicalEquality(plan, a, a);
    IssueFreeIsCanonicalEquality(plan, a, b);
    IssueFreeIsCanonicalEquality(plan, b, a);
    IssueFreeIsCanonicalEquality(plan, b, c);
    IssueFreeIsCanonicalEquality(plan, a, c);
  }

  ghost predicate Compatible(l: Record, r: Record, plan: Plan) {
    IssueFree(l, r, plan) && forall n :: SharedMetric(l, r, n) ==> l.metrics[n] == r.metrics[n]
  }

  /** Compatibility does not depend on the order of the two records, whatever their state. */
  lemma {:induction false} CompatibleIsSymmetric(l: Record, r: Record, plan: Plan)
    ensures Compatible(l, r, plan) <==> Compatible(r, l, plan)
  {
    if Compatible(l, r, plan) { Flip(l, r, plan); }
    if Compatible(r, l, plan) { Flip(r, l, plan); }
  }

  lemma {:induction false} Flip(l: Record, r: Record, plan: Plan)
    requires Compatible(l, r, plan)
    ensures Compatible(r, l, plan)
  {
    FlipDeclarations(l, r, plan);
    FlipLeaves(plan, VisibleLeaves(l), VisibleLeaves(r));
  }

  lemma {:induction false} FlipDeclarations(l: Record, r: Record, plan: Plan)
    requires DeclarationsOk(l, r, plan)
    ensures DeclarationsOk(r, l, plan)
  {
    FlipRole(l, r, plan, Vary);
    FlipRole(l, r, plan, Control);
    FlipRole(l, r, plan, Block);
    FlipRole(l, r, plan, Waiver);
  }

  lemma {:induction false} FlipRole(l: Record, r: Record, plan: Plan, role: Role)
    requires RoleOk(l, r, plan, role)
    ensures RoleOk(r, l, plan, role)
  {
    forall d | d in plan.Dimensions(role) ensures DeclaredOk(r, l, role, d) {
      assert DeclaredOk(l, r, role, d);
    }
  }

  lemma {:induction false} FlipLeaves(plan: Plan, l: LeafSet, r: LeafSet)
    requires LeavesOk(plan, l, r)
    ensures LeavesOk(plan, r, l)
  {
    forall p ensures LeafOk(plan, r, l, p) {
      assert LeafOk(plan, l, r, p);
    }
  }

  /** The report's flag is that relation, so it is symmetric for any two reports of the same pair. */
  method CompatibleFlag(l: Record, r: Record, plan: Plan) returns (forward: bool, backward: bool)
    requires Accepted(plan)
    ensures forward == backward
    ensures forward <==> Compatible(l, r, plan)
  {
    var there := CompareRuns(l, r, plan);
    var back := CompareRuns(r, l, plan);
    FlagIsCompatible(l, r, plan, there);
    FlagIsCompatible(r, l, plan, back);
    CompatibleIsSymmetric(l, r, plan);
    return there.compatible, back.compatible;
  }

  lemma {:induction false} FlagIsCompatible(l: Record, r: Record, plan: Plan, report: Report)
    requires ReportFits(l, r, plan, report)
    ensures report.compatible <==> Compatible(l, r, plan)
  {
    IssuesEmptyIffIssueFree(l, r, plan, report.issues);
    if report.incompatible != [] {
      assert report.incompatible[0] in report.incompatible;
    }
  }
}
