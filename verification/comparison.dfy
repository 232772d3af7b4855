/** `compare_runs`: the fail-closed comparison of two run records under a plan. */
module Comparison {
  import opened Paths
  import opened Wrappers
  import opened Plans
  import opened Evidence
  import opened Records
  import opened Resolve
  import opened Visibility
  import opened Coherence

  /** What one side holds at a leaf path. */
  datatype Side = Absent | Present(value: Value)

  datatype Shown = NoValue | MissingLabel | Shown(value: Value) | StatusName(status: RunStatus)

  datatype Reason =
    | NotCompleted | UnknownDeclaration(role: Role) | RequiredMissing(role: Role) | ControlDiffers | BlocksDiffer
    | AmbiguousEvidence | Undeclared | WaivedBecause(text: string)

  datatype Issue = Issue(dimension: string, left: Shown, right: Shown, reason: Reason)

  datatype Report = Report(
    compatible: bool, issues: seq<Issue>, comparable: seq<string>, incompatible: seq<string>, waived: seq<Issue>)

  ghost function SideAt(leaves: LeafSet, path: string): Side {
    if exists x :: (path, x) in leaves then
      var x :| (path, x) in leaves;
      Present(x)
    else Absent
  }

  function SideOf(flat: map<string, Value>, path: string): Side {
    if path in flat then Present(flat[path]) else Absent
  }

  lemma {:induction false} SideOfFlat(flat: map<string, Value>, leaves: LeafSet, path: string)
    requires Items(flat) == leaves
    ensures SideOf(flat, path) == SideAt(leaves, path)
  {
    if path in flat { assert (path, flat[path]) in Items(flat); }
  }

  function ShowSide(s: Side): Shown {
    match s case Absent => MissingLabel case Present(v) => Shown(v)
  }

  // ----- declared dimensions -----

  function ShowLookup(x: Lookup): Shown {
    match x case Found(v) => Shown(v) case _ => MissingLabel
  }

  function DifferenceReason(role: Role): Reason {
    if role == Control then ControlDiffers else BlocksDiffer
  }

  /** `_declared_dimension_issue`, from what the lookup gave on each side. */
  function LookupIssue(d: string, role: Role, left: Lookup, right: Lookup): Option<Issue> {
    if left.UnknownDimension? || right.UnknownDimension? then
      Some(Issue(d, NoValue, NoValue, UnknownDeclaration(role)))
    else if left.Missing? || right.Missing? then
      Some(Issue(d, ShowLookup(left), ShowLookup(right), RequiredMissing(role)))
    else if role in {Vary, Waiver} || left == right then None
    else Some(Issue(d, ShowLookup(left), ShowLookup(right), DifferenceReason(role)))
  }

  function DeclaredIssue(l: Record, r: Record, d: string, role: Role): Option<Issue> {
    LookupIssue(d, role, ResolveDimension(l, d), ResolveDimension(r, d))
  }

  ghost function DeclaredIssues(l: Record, r: Record, role: Role, dims: seq<string>): seq<Issue> {
    if dims == [] then []
    else
      DeclaredIssues(l, r, role, dims[..|dims| - 1])
      + (match DeclaredIssue(l, r, dims[|dims| - 1], role) case Some(i) => [i] case None => [])
  }

  method CheckDeclared(l: Record, r: Record, role: Role, dims: set<string>) returns (issues: seq<Issue>)
    ensures issues == DeclaredIssues(l, r, role, Sorted(dims))
  {
    issues := [];
    var sorted := SortKeys(dims);
    for i := 0 to |sorted|
      invariant issues == DeclaredIssues(l, r, role, sorted[..i])
    {
      assert sorted[..i + 1][..i] == sorted[..i];
      var left := ResolveByLoop(l, sorted[i]);
      var right := ResolveByLoop(r, sorted[i]);
      var issue := LookupIssue(sorted[i], role, left, right);
      if issue.Some? { issues := issues + [issue.value]; }
    }
    assert sorted[..|sorted|] == sorted;
  }

  // ----- leaves -----

  lemma {:induction false} FindLongest(plan: Plan, path: string, n: nat) returns (found: bool, role: Role, d: string)
    requires n <= |path|
    ensures found ==> Declares(plan, path, role, d)
    ensures found ==> forall r, e :: Declares(plan, path, r, e) && |e| <= n ==> |e| <= |d|
    ensures !found ==> forall r, e :: Declares(plan, path, r, e) ==> |e| > n
    ensures forall r, e :: Declares(plan, path, r, e) ==> |e| <= |path|
  {
    d := path[..n];
    if r :| Declares(plan, path, r, d) {
      found, role := true, r;
    } else {
      forall r, e | Declares(plan, path, r, e) ensures |e| != n {
        assert e == path[..|e|];
      }
      if n > 0 { found, role, d := FindLongest(plan, path, n - 1); } else { found, role := false, Vary; }
    }
  }

  lemma {:induction false} SomeRole(plan: Plan, path: string) returns (m: RoleMatch)
    ensures RoleIs(plan, path, m)
  {
    var found, role, d := FindLongest(plan, path, |path|);
    if found {
      m := Direct(role, d);
    } else if r, e :| Inherits(plan, path, r, e) {
      m := Inherited(r, e);
    } else {
      m := Unassigned;
    }
  }

  lemma {:induction false} RoleExists(plan: Plan, path: string)
    ensures exists m :: RoleIs(plan, path, m)
  {
    var _ := SomeRole(plan, path);
  }

  ghost function RoleOf(plan: Plan, path: string): (m: RoleMatch)
    ensures RoleIs(plan, path, m)
  {
    RoleExists(plan, path);
    var m :| RoleIs(plan, path, m);
    m
  }

  /** The issue, if any, that a leaf differing between the sides raises in the role that governs it. */
  function LeafIssue(m: RoleMatch, path: string, left: Side, right: Side): seq<Issue> {
    var shownLeft, shownRight := ShowSide(left), ShowSide(right);
    match m
    case Unassigned => [Issue(path, shownLeft, shownRight, Undeclared)]
    case Direct(_, _) => []
    case Inherited(role, _) =>
      if left.Absent? || right.Absent? then [Issue(path, shownLeft, shownRight, RequiredMissing(role))]
      else if role == Vary then []
      else [Issue(path, shownLeft, shownRight, DifferenceReason(role))]
  }

  function LeafWaiver(plan: Plan, m: RoleMatch, path: string, left: Side, right: Side): seq<Issue> {
    if m.Direct? && m.role == Waiver && left.Present? && right.Present? && m.declaration in plan.waivers then
      [Issue(path, Shown(left.value), Shown(right.value), WaivedBecause(plan.waivers[m.declaration]))]
    else []
  }

  ghost function LeafIssues(plan: Plan, l: LeafSet, r: LeafSet, paths: seq<string>): seq<Issue> {
    if paths == [] then []
    else
      var p := paths[|paths| - 1];
      LeafIssues(plan, l, r, paths[..|paths| - 1])
      + if SideAt(l, p) == SideAt(r, p) then [] else LeafIssue(RoleOf(plan, p), p, SideAt(l, p), SideAt(r, p))
  }

  ghost function WaivedLeaves(plan: Plan, l: LeafSet, r: LeafSet, paths: seq<string>): seq<Issue> {
    if paths == [] then []
    else
      var p := paths[|paths| - 1];
      WaivedLeaves(plan, l, r, paths[..|paths| - 1])
      + if SideAt(l, p) == SideAt(r, p) then [] else LeafWaiver(plan, RoleOf(plan, p), p, SideAt(l, p), SideAt(r, p))
  }

  ghost function PathSet(leaves: LeafSet): set<string> {
    set leaf | leaf in leaves :: leaf.0
  }

  method CheckLeaves(plan: Plan, left: map<string, Value>, right: map<string, Value>, direct: seq<(string, Role)>)
    returns (issues: seq<Issue>, waived: seq<Issue>)
    requires Accepted(plan) && SpecificityOrder(plan, direct)
    ensures issues == LeafIssues(plan, Items(left), Items(right), Sorted(left.Keys + right.Keys))
    ensures waived == WaivedLeaves(plan, Items(left), Items(right), Sorted(left.Keys + right.Keys))
  {
    issues, waived := [], [];
    var paths := SortKeys(left.Keys + right.Keys);
    for i := 0 to |paths|
      invariant issues == LeafIssues(plan, Items(left), Items(right), paths[..i])
      invariant waived == WaivedLeaves(plan, Items(left), Items(right), paths[..i])
    {
      assert paths[..i + 1][..i] == paths[..i];
      var p := paths[i];
      var leftLeaf, rightLeaf := SideOf(left, p), SideOf(right, p);
      SideOfFlat(left, Items(left), p);
      SideOfFlat(right, Items(right), p);
      if leftLeaf != rightLeaf {
        var m := RoleForPath(plan, p, direct);
        RoleIsUnique(plan, p, m, RoleOf(plan, p));
        issues := issues + LeafIssue(m, p, leftLeaf, rightLeaf);
        waived := waived + LeafWaiver(plan, m, p, leftLeaf, rightLeaf);
      }
    }
    assert paths[..|paths|] == paths;
  }

  method LongestOf(items: set<(string, Role)>) returns (best: (string, Role))
    requires items != {}
    ensures best in items && forall x :: x in items ==> |x.0| <= |best.0|
  {
    best :| best in items;
    var todo := items - {best};
    while todo != {}
      invariant best in items && todo <= items
      invariant forall x :: x in items - todo ==> |x.0| <= |best.0|
      decreases |todo|
    {
      var x :| x in todo;
      if |x.0| > |best.0| { best := x; }
      todo := todo - {x};
    }
  }

  function DeclarationSet(plan: Plan): (items: set<(string, Role)>)
    ensures forall d, role :: (d, role) in items <==> d in plan.Dimensions(role)
  {
    (set d | d in plan.vary :: (d, Vary)) + (set d | d in plan.control :: (d, Control))
    + (set d | d in plan.blockBy :: (d, Block)) + (set d | d in plan.waivers :: (d, Waiver))
  }

  method SortByLength(items: set<(string, Role)>) returns (direct: seq<(string, Role)>)
    ensures forall x :: x in direct <==> x in items
    ensures forall i, j :: 0 <= i < j < |direct| ==> |direct[i].0| >= |direct[j].0|
  {
    direct := [];
    var rest := items;
    while rest != {}
      invariant rest <= items
      invariant forall x :: x in direct <==> x in items - rest
      invariant forall i, j :: 0 <= i < j < |direct| ==> |direct[i].0| >= |direct[j].0|
      invariant forall i, y :: 0 <= i < |direct| && y in rest ==> |direct[i].0| >= |y.0|
      decreases |rest|
    {
      var best := LongestOf(rest);
      direct := direct + [best];
      rest := rest - {best};
    }
  }

  /** All declarations, longest first: `_role_declarations`. */
  method RoleDeclarations(plan: Plan) returns (direct: seq<(string, Role)>)
    ensures SpecificityOrder(plan, direct)
  {
    var items := DeclarationSet(plan);
    direct := SortByLength(items);
    forall d, role ensures (d, role) in direct <==> d in plan.Dimensions(role) {
      assert (d, role) in direct <==> (d, role) in items;
    }
  }

  // ----- the whole report -----

  function StatusIssues(l: Record, r: Record): seq<Issue> {
    if l.status.Completed? && r.status.Completed? then []
    else [Issue("status", StatusName(l.status), StatusName(r.status), NotCompleted)]
  }

  ghost function DeclarationIssues(l: Record, r: Record, plan: Plan): seq<Issue> {
    DeclaredIssues(l, r, Vary, Sorted(plan.vary)) + DeclaredIssues(l, r, Control, Sorted(plan.control))
    + DeclaredIssues(l, r, Block, Sorted(plan.blockBy)) + DeclaredIssues(l, r, Waiver, Sorted(plan.waivers.Keys))
  }

  ghost function RecordLeaves(r: Record): LeafSet {
    Leaves(Map(Roots(r)), "")
  }

  ghost function AllPaths(l: Record, r: Record): seq<string> {
    Sorted(PathSet(RecordLeaves(l)) + PathSet(RecordLeaves(r)))
  }

  function AmbiguityIssue(path: string): Issue {
    Issue(path, NoValue, NoValue, AmbiguousEvidence)
  }

  /** What the leaves contribute to a report's issues and waived differences. */
  ghost predicate LeafFindings(l: Record, r: Record, plan: Plan, issues: seq<Issue>, waived: seq<Issue>) {
    if !UnambiguousRecord(l) then
      waived == [] && exists p :: AmbiguousAt(Map(Roots(l)), "", p) && issues == [AmbiguityIssue(p)]
    else if !UnambiguousRecord(r) then
      waived == [] && exists p :: AmbiguousAt(Map(Roots(r)), "", p) && issues == [AmbiguityIssue(p)]
    else
      && issues == LeafIssues(plan, RecordLeaves(l), RecordLeaves(r), AllPaths(l, r))
      && waived == WaivedLeaves(plan, RecordLeaves(l), RecordLeaves(r), AllPaths(l, r))
  }

  lemma {:induction false} PathsOfItems(flat: map<string, Value>)
    ensures PathSet(Items(flat)) == flat.Keys
  {
    forall p | p in flat ensures p in PathSet(Items(flat)) {
      assert (p, flat[p]) in Items(flat);
    }
  }

  method FindLeafIssues(l: Record, r: Record, plan: Plan) returns (issues: seq<Issue>, waived: seq<Issue>)
    requires Accepted(plan)
    ensures LeafFindings(l, r, plan, issues, waived)
  {
    RootsNotEmpty(l);
    RootsNotEmpty(r);
    var leftRoots := ComparisonRoots(l);
    var left := Flatten(Map(leftRoots), "");
    if left.Ambiguous? { return [AmbiguityIssue(left.path)], []; }
    var rightRoots := ComparisonRoots(r);
    var right := Flatten(Map(rightRoots), "");
    if right.Ambiguous? { return [AmbiguityIssue(right.path)], []; }
    PathsOfItems(left.leaves);
    PathsOfItems(right.leaves);
    var direct := RoleDeclarations(plan);
    issues, waived := CheckLeaves(plan, left.leaves, right.leaves, direct);
  }

  ghost predicate SharedMetric(l: Record, r: Record, name: string) {
    name in l.metrics && name in r.metrics
  }

  method CompareMetrics(l: Record, r: Record) returns (comparable: seq<string>, incompatible: seq<string>)
    ensures forall n :: n in comparable <==> SharedMetric(l, r, n) && l.metrics[n] == r.metrics[n]
    ensures forall n :: n in incompatible <==> SharedMetric(l, r, n) && l.metrics[n] != r.metrics[n]
  {
    comparable, incompatible := [], [];
    var names := SortKeys(l.metrics.Keys * r.metrics.Keys);
    for i := 0 to |names|
      invariant forall n :: n in comparable <==>
        n in names[..i] && SharedMetric(l, r, n) && l.metrics[n] == r.metrics[n]
      invariant forall n :: n in incompatible <==>
        n in names[..i] && SharedMetric(l, r, n) && l.metrics[n] != r.metrics[n]
    {
      var name := names[i];
      assert name in names;
      assert names[..i + 1] == names[..i] + [name];
      if l.metrics[name] == r.metrics[name] { comparable := comparable + [name]; }
      else { incompatible := incompatible + [name]; }
    }
    assert names[..|names|] == names;
    assert forall n :: SharedMetric(l, r, n) ==> n in names;
  }

  /** What a report says of two records. */
  ghost predicate ReportFits(l: Record, r: Record, plan: Plan, report: Report) {
    && (exists leafIssues ::
          && LeafFindings(l, r, plan, leafIssues, report.waived)
          && report.issues == StatusIssues(l, r) + DeclarationIssues(l, r, plan) + leafIssues)
    && (forall n :: n in report.comparable <==> SharedMetric(l, r, n) && l.metrics[n] == r.metrics[n])
    && (forall n :: n in report.incompatible <==> SharedMetric(l, r, n) && l.metrics[n] != r.metrics[n])
    && (report.compatible <==> report.issues == [] && report.incompatible == [])
  }

  method CompareRuns(l: Record, r: Record, plan: Plan) returns (report: Report)
    requires Accepted(plan)
    ensures ReportFits(l, r, plan, report)
  {
    var issues := StatusIssues(l, r);
    var vary := CheckDeclared(l, r, Vary, plan.vary);
    var control := CheckDeclared(l, r, Control, plan.control);
    var block := CheckDeclared(l, r, Block, plan.blockBy);
    var waiver := CheckDeclared(l, r, Waiver, plan.waivers.Keys);
    var leafIssues, waived := FindLeafIssues(l, r, plan);
    issues := issues + (vary + control + block + waiver) + leafIssues;
    var comparable, incompatible := CompareMetrics(l, r);
    return Report(issues == [] && incompatible == [], issues, comparable, incompatible, waived);
  }
}
