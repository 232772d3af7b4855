/** `ComparisonPlan`: declared comparison roles, and the role that governs a leaf path. */
module Plans {
  import opened Paths
  import opened Stripping
  import opened Wrappers

  datatype Role = Vary | Control | Block | Waiver

  const ROLES: seq<Role> := [Vary, Control, Block, Waiver]

  datatype Plan = Plan(
    vary: set<string>,
    control: set<string>,
    blockBy: set<string>,
    analyses: seq<string>,
    waivers: map<string, string>)
  {
    function Dimensions(role: Role): set<string> {
      match role
      case Vary => vary
      case Control => control
      case Block => blockBy
      case Waiver => waivers.Keys
    }
  }

  datatype PlanError = BadDimension | BlankReason | OverlappingRoles | BlankAnalysis | DuplicateAnalysis

  // ----- construction and normalisation -----

  predicate IsDottedPath(d: string) {
    d != "" && forall i :: 0 <= i < |Split(d)| ==> Split(d)[i] != ""
  }

  function StrippedSet(values: seq<string>): set<string> {
    set i | 0 <= i < |values| :: Strip(values[i])
  }

  /** `ds` holds the given texts, each without the white space around it. */
  ghost predicate AreStripped(values: seq<string>, ds: set<string>) {
    forall d :: d in ds <==> exists i :: 0 <= i < |values| && IsStripOf(values[i], d)
  }

  ghost predicate AllDotted(values: seq<string>) {
    forall i, d :: 0 <= i < |values| && IsStripOf(values[i], d) ==> IsDottedPath(d)
  }

  lemma {:induction false} StrippedSetExact(values: seq<string>, ds: set<string>)
    ensures (AreStripped(values, ds)) == (ds == StrippedSet(values))
    ensures (AllDotted(values)) == forall d :: d in StrippedSet(values) ==> IsDottedPath(d)
  {
    forall i, d | 0 <= i < |values| ensures (IsStripOf(values[i], d)) == (Strip(values[i]) == d) {
      StripExact(values[i], d);
    }
    if AreStripped(values, ds) {
      forall d ensures d in ds <==> d in StrippedSet(values) {}
    }
  }

  method NormalizeDimensions(values: seq<string>) returns (r: Result<set<string>, PlanError>)
    ensures r.Ok? <==> AllDotted(values)
    ensures r.Ok? ==> AreStripped(values, r.value)
    ensures r.Err? ==> r.error == BadDimension
  {
    StrippedSetExact(values, StrippedSet(values));
    var normalized: set<string> := {};
    for i := 0 to |values|
      invariant normalized == StrippedSet(values[..i])
      invariant forall d :: d in normalized ==> IsDottedPath(d)
    {
      assert values[..i + 1] == values[..i] + [values[i]];
      var dimension := Strip(values[i]);
      if !IsDottedPath(dimension) {
        assert dimension in StrippedSet(values);
        return Err(BadDimension);
      }
      assert StrippedSet(values[..i + 1]) == StrippedSet(values[..i]) + {dimension} by {
        var next := values[..i + 1];
        assert forall k :: 0 <= k < i ==> next[k] == values[..i][k];
        assert next[i] == values[i];
        forall d | d in StrippedSet(next) ensures d in StrippedSet(values[..i]) + {dimension} {
          var k :| 0 <= k < |next| && d == Strip(next[k]);
          if k < i { assert d == Strip(values[..i][k]); }
        }
        forall d | d in StrippedSet(values[..i]) ensures d in StrippedSet(next) {
          var k :| 0 <= k < i && d == Strip(values[..i][k]);
          assert d == Strip(next[k]);
        }
        assert dimension == Strip(next[i]);
      }
      normalized := normalized + {dimension};
    }
    assert values[..|values|] == values;
    return Ok(normalized);
  }

  /** No declaration of one role covers or is covered by a declaration of another. */
  ghost predicate RolesDisjoint(plan: Plan) {
    forall ra, rb, a, b :: ra != rb && a in plan.Dimensions(ra) && b in plan.Dimensions(rb) ==> !PathsOverlap(a, b)
  }

  ghost predicate Accepted(plan: Plan) {
    && RolesDisjoint(plan)
    && (forall role, d :: d in plan.Dimensions(role) ==> IsDottedPath(d))
    && (forall d :: d in plan.waivers ==> !AllSpace(plan.waivers[d]))
    && (forall i :: 0 <= i < |plan.analyses| ==> !AllSpace(plan.analyses[i]))
    && (forall i, j :: 0 <= i < j < |plan.analyses| ==> plan.analyses[i] != plan.analyses[j])
  }

  method Conflicts(left: set<string>, right: set<string>) returns (conflicts: seq<(string, string)>)
    ensures forall a, b :: (a, b) in conflicts <==> a in left && b in right && PathsOverlap(a, b)
  {
    conflicts := [];
    var ls := left;
    while ls != {}
      invariant ls <= left
      invariant forall a, b :: (a, b) in conflicts <==> a in left - ls && b in right && PathsOverlap(a, b)
      decreases |ls|
    {
      var a :| a in ls;
      var rs := right;
      while rs != {}
        invariant rs <= right && a in ls
        invariant forall x, b :: (x, b) in conflicts <==>
          ((x in left - ls && b in right) || (x == a && b in right - rs)) && PathsOverlap(x, b)
        decreases |rs|
      {
        var b :| b in rs;
        if PathsOverlap(a, b) { conflicts := conflicts + [(a, b)]; }
        rs := rs - {b};
      }
      ls := ls - {a};
    }
  }

  /** The waiver dictionary: later raw entries replace earlier ones with the same stripped key. */
  function StrippedWaivers(raw: seq<(string, string)>): map<string, string> {
    if raw == [] then map[]
    else
      var last := raw[|raw| - 1];
      StrippedWaivers(raw[..|raw| - 1])[Strip(last.0) := Strip(last.1)]
  }

  ghost predicate WaiversWellFormed(raw: seq<(string, string)>) {
    forall i :: 0 <= i < |raw| ==> WaiverOk(raw[i])
  }

  /** The last raw entry of each stripped dimension decides, with its reason stripped. */
  ghost predicate AreWaivers(raw: seq<(string, string)>, waivers: map<string, string>) {
    forall d, reason :: (d in waivers && waivers[d] == reason) <==> LastWaiver(raw, d, reason)
  }

  ghost predicate LastWaiver(raw: seq<(string, string)>, d: string, reason: string) {
    exists i :: DecidesAt(raw, i, d, reason)
  }

  ghost predicate DecidesAt(raw: seq<(string, string)>, i: int, d: string, reason: string) {
    && 0 <= i < |raw| && IsStripOf(raw[i].0, d) && IsStripOf(raw[i].1, reason)
    && (forall j :: i < j < |raw| ==> !IsStripOf(raw[j].0, d))
  }

  lemma {:induction false} OneMoreWaiver(raw: seq<(string, string)>, d: string, reason: string)
    requires raw != []
    ensures Strip(raw[|raw| - 1].0) == d ==> (LastWaiver(raw, d, reason) <==> Strip(raw[|raw| - 1].1) == reason)
    ensures Strip(raw[|raw| - 1].0) != d ==>
      (LastWaiver(raw, d, reason) <==> LastWaiver(raw[..|raw| - 1], d, reason))
  {
    var n, front := |raw| - 1, raw[..|raw| - 1];
    StripExact(raw[n].0, d);
    StripExact(raw[n].1, reason);
    if Strip(raw[n].0) == d {
      if Strip(raw[n].1) == reason { assert DecidesAt(raw, n, d, reason); }
      forall i | DecidesAt(raw, i, d, reason) ensures i == n {}
    } else {
      forall i ensures (DecidesAt(raw, i, d, reason)) == DecidesAt(front, i, d, reason) {
        EarlierDecides(raw, front, i, d, reason);
      }
    }
  }

  lemma {:induction false} EarlierDecides(
      raw: seq<(string, string)>, front: seq<(string, string)>, i: int, d: string, reason: string)
    requires raw != [] && front == raw[..|raw| - 1] && !IsStripOf(raw[|raw| - 1].0, d)
    ensures (DecidesAt(raw, i, d, reason)) == DecidesAt(front, i, d, reason)
  {
    assert forall j :: 0 <= j < |front| ==> raw[j] == front[j];
  }

  lemma {:induction false} StrippedWaiversAre(raw: seq<(string, string)>)
    ensures AreWaivers(raw, StrippedWaivers(raw))
  {
    if raw != [] {
      StrippedWaiversAre(raw[..|raw| - 1]);
      forall d, reason { OneMoreWaiver(raw, d, reason); }
    }
  }

  lemma {:induction false} WaiversAreUnique(raw: seq<(string, string)>, a: map<string, string>, b: map<string, string>)
    requires AreWaivers(raw, a) && AreWaivers(raw, b)
    ensures a == b
  {
    forall d | d in a ensures d in b && b[d] == a[d] { assert LastWaiver(raw, d, a[d]); }
    forall d | d in b ensures d in a && a[d] == b[d] { assert LastWaiver(raw, d, b[d]); }
  }

  lemma {:induction false} StripIdempotent(s: string)
    ensures Strip(Strip(s)) == Strip(s)
  {
    if s != "" {
      if IsSpace(s[0]) { StripIdempotent(s[1..]); }
      else if IsSpace(s[|s| - 1]) { StripIdempotent(s[..|s| - 1]); }
    }
  }

  /** The stripped dimension is a dotted path, and the reason is not blank. */
  ghost predicate WaiverOk(w: (string, string)) {
    (forall d :: IsStripOf(w.0, d) ==> IsDottedPath(d)) && !AllSpace(w.1)
  }

  lemma {:induction false} WaiverOkByStrip(w: (string, string))
    ensures (WaiverOk(w)) == (IsDottedPath(Strip(w.0)) && Strip(w.1) != "")
  {
    StripExact(w.0, Strip(w.0));
    forall d | IsStripOf(w.0, d) ensures d == Strip(w.0) { StripExact(w.0, d); }
    BlankIsAllSpace(w.1);
  }

  lemma {:induction false} WaiverStep(raw: seq<(string, string)>, i: nat)
    requires i < |raw| && WaiversWellFormed(raw[..i])
    ensures if WaiverOk(raw[i]) then WaiversWellFormed(raw[..i + 1]) else !WaiversWellFormed(raw)
    ensures StrippedWaivers(raw[..i + 1]) == StrippedWaivers(raw[..i])[Strip(raw[i].0) := Strip(raw[i].1)]
  {
    var before, more := raw[..i], raw[..i + 1];
    assert more[..i] == before && more[i] == raw[i];
    if WaiverOk(raw[i]) {
      forall k | 0 <= k < |more| ensures WaiverOk(more[k]) {
        if k < i { assert more[k] == before[k]; }
      }
    }
  }

  predicate WaiversOk(waivers: map<string, string>) {
    forall d :: d in waivers ==> IsDottedPath(d) && !AllSpace(waivers[d])
  }

  method NormalizeWaivers(raw: seq<(string, string)>) returns (r: Result<map<string, string>, PlanError>)
    ensures r.Ok? <==> WaiversWellFormed(raw)
    ensures r.Ok? ==> AreWaivers(raw, r.value)
    ensures r.Ok? ==> WaiversOk(r.value)
  {
    var waivers: map<string, string> := map[];
    for i := 0 to |raw|
      invariant WaiversWellFormed(raw[..i])
      invariant waivers == StrippedWaivers(raw[..i])
      invariant WaiversOk(waivers)
    {
      WaiverStep(raw, i);
      WaiverOkByStrip(raw[i]);
      var dimension, reason := Strip(raw[i].0), Strip(raw[i].1);
      if !IsDottedPath(dimension) { return Err(BadDimension); }
      if reason == "" { return Err(BlankReason); }
      StripIdempotent(raw[i].1);
      BlankIsAllSpace(reason);
      waivers := waivers[dimension := reason];
    }
    assert raw[..|raw|] == raw;
    StrippedWaiversAre(raw);
    return Ok(waivers);
  }

  /** The plan holds the given dimensions and waivers, stripped, and the analyses as they are. */
  ghost predicate PlanHolds(
    plan: Plan, vary: seq<string>, control: seq<string>, blockBy: seq<string>, waivers: seq<(string, string)>,
    analyses: seq<string>)
  {
    && AreStripped(vary, plan.vary) && AreStripped(control, plan.control) && AreStripped(blockBy, plan.blockBy)
    && AreWaivers(waivers, plan.waivers) && plan.analyses == analyses
  }

  lemma {:induction false} HeldPlanIsUnique(
      plan: Plan, full: Plan, vary: seq<string>, control: seq<string>, blockBy: seq<string>,
      waivers: seq<(string, string)>, analyses: seq<string>)
    requires full ==
      Plan(StrippedSet(vary), StrippedSet(control), StrippedSet(blockBy), analyses, StrippedWaivers(waivers))
    ensures (PlanHolds(plan, vary, control, blockBy, waivers, analyses)) == (plan == full)
  {
    StrippedSetExact(vary, plan.vary);
    StrippedSetExact(control, plan.control);
    StrippedSetExact(blockBy, plan.blockBy);
    StrippedWaiversAre(waivers);
    if AreWaivers(waivers, plan.waivers) { WaiversAreUnique(waivers, plan.waivers, full.waivers); }
  }

  lemma {:induction false} DisjointFromPairs(plan: Plan)
    requires forall i, j :: 0 <= i < j < |ROLES| ==>
      forall a, b :: a in plan.Dimensions(ROLES[i]) && b in plan.Dimensions(ROLES[j]) ==> !PathsOverlap(a, b)
    ensures RolesDisjoint(plan)
  {
    forall ra, rb, a, b | ra != rb && a in plan.Dimensions(ra) && b in plan.Dimensions(rb)
      ensures !PathsOverlap(a, b)
    {
      assert exists i :: 0 <= i < 4 && ROLES[i] == ra by {
        match ra case Vary => assert ROLES[0] == ra; case Control => assert ROLES[1] == ra;
        case Block => assert ROLES[2] == ra; case Waiver => assert ROLES[3] == ra;
      }
      assert exists j :: 0 <= j < 4 && ROLES[j] == rb by {
        match rb case Vary => assert ROLES[0] == rb; case Control => assert ROLES[1] == rb;
        case Block => assert ROLES[2] == rb; case Waiver => assert ROLES[3] == rb;
      }
      var i :| 0 <= i < 4 && ROLES[i] == ra;
      var j :| 0 <= j < 4 && ROLES[j] == rb;
      if i < j { assert !PathsOverlap(a, b); } else { assert !PathsOverlap(b, a); }
    }
  }

  method HasClash(plan: Plan) returns (clash: bool)
    ensures clash <==> !RolesDisjoint(plan)
  {
    clash := false;
    for i := 0 to |ROLES|
      invariant !clash ==> forall x, j :: 0 <= x < i && x < j < |ROLES| ==>
        forall a, b :: a in plan.Dimensions(ROLES[x]) && b in plan.Dimensions(ROLES[j]) ==> !PathsOverlap(a, b)
      invariant clash ==> !RolesDisjoint(plan)
    {
      for j := i + 1 to |ROLES|
        invariant !clash ==> forall x, y :: 0 <= x < y < |ROLES| && (x < i || (x == i && y < j)) ==>
          forall a, b :: a in plan.Dimensions(ROLES[x]) && b in plan.Dimensions(ROLES[y]) ==> !PathsOverlap(a, b)
        invariant clash ==> !RolesDisjoint(plan)
      {
        var conflicts := Conflicts(plan.Dimensions(ROLES[i]), plan.Dimensions(ROLES[j]));
        if conflicts != [] {
          var (a, b) := conflicts[0];
          assert (a, b) in conflicts;
          assert ROLES[i] != ROLES[j];
          clash := true;
        } else {
          forall a, b | a in plan.Dimensions(ROLES[i]) && b in plan.Dimensions(ROLES[j])
            ensures !PathsOverlap(a, b)
          {
            assert (a, b) !in conflicts;
          }
        }
      }
    }
    if !clash { DisjointFromPairs(plan); }
  }

  method MakePlan(
    vary: seq<string>, control: seq<string>, blockBy: seq<string>, waivers: seq<(string, string)>,
    analyses: seq<string>)
    returns (r: Result<Plan, PlanError>)
    ensures r.Ok? <==>
      WaiversWellFormed(waivers)
      && exists plan :: PlanHolds(plan, vary, control, blockBy, waivers, analyses) && Accepted(plan)
    ensures r.Ok? ==> PlanHolds(r.value, vary, control, blockBy, waivers, analyses) && Accepted(r.value)
  {
    ghost var full :=
      Plan(StrippedSet(vary), StrippedSet(control), StrippedSet(blockBy), analyses, StrippedWaivers(waivers));
    forall plan { HeldPlanIsUnique(plan, full, vary, control, blockBy, waivers, analyses); }
    StrippedSetExact(vary, full.vary);
    StrippedSetExact(control, full.control);
    StrippedSetExact(blockBy, full.blockBy);
    var v := NormalizeDimensions(vary);
    if v.Err? { assert exists d :: d in full.Dimensions(Vary) && !IsDottedPath(d); return Err(v.error); }
    var c := NormalizeDimensions(control);
    if c.Err? { assert exists d :: d in full.Dimensions(Control) && !IsDottedPath(d); return Err(c.error); }
    var b := NormalizeDimensions(blockBy);
    if b.Err? { assert exists d :: d in full.Dimensions(Block) && !IsDottedPath(d); return Err(b.error); }
    var w := NormalizeWaivers(waivers);
    if w.Err? { return Err(w.error); }
    StrippedSetExact(vary, v.value);
    StrippedSetExact(control, c.value);
    StrippedSetExact(blockBy, b.value);
    StrippedWaiversAre(waivers);
    WaiversAreUnique(waivers, w.value, full.waivers);
    var plan := Plan(v.value, c.value, b.value, analyses, w.value);
    assert plan == full;

    var clash := HasClash(plan);
    if clash { return Err(OverlappingRoles); }
    forall i | 0 <= i < |analyses| ensures (Strip(analyses[i]) == "") == AllSpace(analyses[i]) {
      BlankIsAllSpace(analyses[i]);
    }
    if exists i :: 0 <= i < |analyses| && Strip(analyses[i]) == "" { return Err(BlankAnalysis); }
    if exists i, j :: 0 <= i < j < |analyses| && analyses[i] == analyses[j] { return Err(DuplicateAnalysis); }
    HeldPlanIsUnique(plan, full, vary, control, blockBy, waivers, analyses);
    assert PlanHolds(plan, vary, control, blockBy, waivers, analyses) && Accepted(plan);
    return Ok(plan);
  }

  // ----- roles of leaf paths -----

  datatype RoleMatch = Unassigned | Direct(role: Role, declaration: string) | Inherited(role: Role, declaration: string)

  ghost predicate Declares(plan: Plan, path: string, role: Role, d: string) {
    d in plan.Dimensions(role) && PathCovers(d, path)
  }

  /** `(role, d)` is a declaration covering `path`, and no covering declaration is longer. */
  ghost predicate MostSpecific(plan: Plan, path: string, role: Role, d: string) {
    Declares(plan, path, role, d) && forall r, e :: Declares(plan, path, r, e) ==> |e| <= |d|
  }

  const ALIASES: seq<(string, seq<string>)> := [
    ("model", ["resolved.model", "observed.model", "observed.identity.model", "observed.identity.tokenizer",
               "observed.identity.chat_template"]),
    ("runtime", ["resolved.runtime", "observed.runtime", "observed.configured.runtime", "observed.identity.runtime",
                 "observed.identity.applied", "observed.identity.endpoint"]),
    ("scenario", ["resolved.scenario", "observed.scenario"])]

  predicate AliasCovers(i: nat, path: string)
    requires i < |ALIASES|
  {
    exists j :: 0 <= j < |ALIASES[i].1| && PathCovers(ALIASES[i].1[j], path)
  }

  /** The role a requested dimension hands to its downstream evidence; waivers are never inherited. */
  function InheritableRole(plan: Plan, dimension: string): Option<Role> {
    if dimension in plan.vary then Some(Vary)
    else if dimension in plan.control then Some(Control)
    else if dimension in plan.blockBy then Some(Block)
    else None
  }

  /**
   * The requested dimensions and the places downstream where their evidence appears: `path` lies in one of the places
   * of `d`.
   */
  ghost predicate AliasRoot(path: string, d: string) {
    match d
    case "model" =>
      || PathCovers("resolved.model", path) || PathCovers("observed.model", path)
      || PathCovers("observed.identity.model", path) || PathCovers("observed.identity.tokenizer", path)
      || PathCovers("observed.identity.chat_template", path)
    case "runtime" =>
      || PathCovers("resolved.runtime", path) || PathCovers("observed.runtime", path)
      || PathCovers("observed.configured.runtime", path) || PathCovers("observed.identity.runtime", path)
      || PathCovers("observed.identity.applied", path) || PathCovers("observed.identity.endpoint", path)
    case "scenario" => PathCovers("resolved.scenario", path) || PathCovers("observed.scenario", path)
    case _ => false
  }

  ghost predicate InheritsVia(plan: Plan, path: string, i: nat, role: Role, d: string) {
    i < |ALIASES| && AliasCovers(i, path) && ALIASES[i].0 == d && InheritableRole(plan, d) == Some(role)
  }

  ghost predicate Inherits(plan: Plan, path: string, role: Role, d: string) {
    exists i: nat :: InheritsVia(plan, path, i, role, d)
  }

  ghost predicate RoleIs(plan: Plan, path: string, m: RoleMatch) {
    match m
    case Direct(role, d) => MostSpecific(plan, path, role, d)
    case Inherited(role, d) =>
      && (forall r, e :: !Declares(plan, path, r, e))
      && Inherits(plan, path, role, d)
    case Unassigned =>
      && (forall r, e :: !Declares(plan, path, r, e))
      && (forall role, d :: !Inherits(plan, path, role, d))
  }

  /** Some dimension of these covers the path. */
  ghost predicate Covered(ds: set<string>, path: string) {
    exists d :: d in ds && PathCovers(d, path)
  }

  /** Something the plan declares covers the path. */
  ghost predicate Declared(plan: Plan, path: string) {
    || Covered(plan.vary, path) || Covered(plan.control, path) || Covered(plan.blockBy, path)
    || Covered(plan.waivers.Keys, path)
  }

  /** The path is downstream evidence of a dimension among these. */
  ghost predicate Downstream(ds: set<string>, path: string) {
    exists d :: d in ds && AliasRoot(path, d)
  }

  lemma {:induction false} TableIsAliasRoot(path: string, i: nat)
    requires i < |ALIASES|
    ensures (AliasCovers(i, path)) == AliasRoot(path, ALIASES[i].0)
  {
    var places := ALIASES[i].1;
    if AliasRoot(path, ALIASES[i].0) {
      assert exists j :: 0 <= j < |places| && PathCovers(places[j], path) by {
        assert PathCovers(places[0], path) || PathCovers(places[1], path)
          || (|places| > 2 && (PathCovers(places[2], path) || PathCovers(places[3], path)
                               || PathCovers(places[4], path) || (|places| > 5 && PathCovers(places[5], path))));
      }
    }
  }

  lemma {:induction false} AliasRootInTable(path: string, d: string) returns (i: nat)
    requires AliasRoot(path, d)
    ensures i < |ALIASES| && ALIASES[i].0 == d && AliasCovers(i, path)
  {
    i := if d == "model" then 0 else if d == "runtime" then 1 else 2;
    TableIsAliasRoot(path, i);
  }

  lemma {:induction false} OneAliasRoot(path: string, d: string, e: string)
    requires AliasRoot(path, d) && AliasRoot(path, e)
    ensures d == e
  {
    var i := AliasRootInTable(path, d);
    var j := AliasRootInTable(path, e);
    AliasesDisjoint(path, i, j);
  }

  lemma {:induction false} DeclaredOnce(plan: Plan, d: string, ra: Role, rb: Role)
    requires Accepted(plan) && d in plan.Dimensions(ra) && d in plan.Dimensions(rb)
    ensures ra == rb
  {
    CoveringDeclarationsAgree(plan, d, ra, d, rb, d);
  }

  lemma {:induction false} InheritsFromDimension(plan: Plan, path: string, role: Role, d: string)
    requires Accepted(plan)
    ensures Inherits(plan, path, role, d) <==> AliasRoot(path, d) && d in plan.Dimensions(role) && role != Waiver
  {
    if Inherits(plan, path, role, d) {
      var i: nat :| InheritsVia(plan, path, i, role, d);
      TableIsAliasRoot(path, i);
    }
    if AliasRoot(path, d) && d in plan.Dimensions(role) && role != Waiver {
      var i := AliasRootInTable(path, d);
      OneInheritableRole(plan, role, d);
      assert InheritsVia(plan, path, i, role, d);
    }
  }

  lemma {:induction false} OneInheritableRole(plan: Plan, role: Role, d: string)
    requires Accepted(plan) && d in plan.Dimensions(role) && role != Waiver
    ensures InheritableRole(plan, d) == Some(role)
  {
    if d in plan.vary { DeclaredOnce(plan, d, Vary, role); }
    else if d in plan.control { DeclaredOnce(plan, d, Control, role); }
  }

  lemma {:induction false} DeclaredIffDeclares(plan: Plan, path: string)
    ensures Declared(plan, path) <==> exists role, d :: Declares(plan, path, role, d)
  {
    if Covered(plan.vary, path) {
      var d :| d in plan.vary && PathCovers(d, path);
      assert Declares(plan, path, Vary, d);
    }
    if Covered(plan.control, path) {
      var d :| d in plan.control && PathCovers(d, path);
      assert Declares(plan, path, Control, d);
    }
    if Covered(plan.blockBy, path) {
      var d :| d in plan.blockBy && PathCovers(d, path);
      assert Declares(plan, path, Block, d);
    }
    if Covered(plan.waivers.Keys, path) {
      var d :| d in plan.waivers.Keys && PathCovers(d, path);
      assert Declares(plan, path, Waiver, d);
    }
    forall role, d | Declares(plan, path, role, d) ensures Declared(plan, path) {
      match role {
        case Vary => assert Covered(plan.vary, path);
        case Control => assert Covered(plan.control, path);
        case Block => assert Covered(plan.blockBy, path);
        case Waiver => assert Covered(plan.waivers.Keys, path);
      }
    }
  }

  /**
   * Inheritance, role by role: a path that nothing declared covers has the role of the declared dimension whose
   * downstream evidence it is; waivers hand down nothing.
   */
  lemma {:induction false} InheritedExactly(plan: Plan, path: string, role: Role, d: string)
    requires Accepted(plan)
    ensures RoleIs(plan, path, Inherited(role, d)) <==>
      !Declared(plan, path) && AliasRoot(path, d) && d in plan.Dimensions(role) && role != Waiver
  {
    DeclaredIffDeclares(plan, path);
    InheritsFromDimension(plan, path, role, d);
  }

  /** What each role means for a path, read off the plan. */
  lemma {:induction false} RoleReads(plan: Plan, path: string, m: RoleMatch)
    requires RoleIs(plan, path, m)
    ensures m.Direct? <==> Declared(plan, path)
    ensures Accepted(plan) && m.Direct? ==> forall role :: Covered(plan.Dimensions(role), path) <==> m.role == role
    ensures m.Inherited? && m.role == Vary <==> !Declared(plan, path) && Downstream(plan.vary, path)
  {
    DeclaredIffDeclares(plan, path);
    if m.Direct? {
      assert Declares(plan, path, m.role, m.declaration);
      assert Covered(plan.Dimensions(m.role), path);
      forall role | Accepted(plan) ensures Covered(plan.Dimensions(role), path) <==> m.role == role {
        if Covered(plan.Dimensions(role), path) {
          var d :| d in plan.Dimensions(role) && PathCovers(d, path);
          CoveringDeclarationsAgree(plan, path, role, d, m.role, m.declaration);
        }
      }
    } else {
      VariedDownstream(plan, path, m);
    }
  }

  /** Variation has the first say among the inherited roles. */
  lemma {:induction false} VariedDownstream(plan: Plan, path: string, m: RoleMatch)
    requires RoleIs(plan, path, m) && !m.Direct?
    ensures m.Inherited? && m.role == Vary <==> Downstream(plan.vary, path)
  {
    if m.Inherited? && m.role == Vary {
      var i: nat :| InheritsVia(plan, path, i, Vary, m.declaration);
      TableIsAliasRoot(path, i);
    }
    if Downstream(plan.vary, path) {
      var d :| d in plan.vary && AliasRoot(path, d);
      var i := AliasRootInTable(path, d);
      assert InheritsVia(plan, path, i, Vary, d);
      assert Inherits(plan, path, Vary, d);
      if m.Inherited? { InheritanceIsUnique(plan, path, m.role, m.declaration, Vary, d); }
    }
  }

  /** An undeclared path is downstream evidence of a dimension in one role at most: the one it inherits. */
  lemma {:induction false} DownstreamRole(plan: Plan, path: string, m: RoleMatch)
    requires Accepted(plan) && RoleIs(plan, path, m) && !m.Direct?
    ensures forall role :: role != Waiver ==>
      (Downstream(plan.Dimensions(role), path) <==> m.Inherited? && m.role == role)
    ensures m.Inherited? ==> m.role != Waiver
  {
    DeclaredIffDeclares(plan, path);
    if m.Inherited? { InheritedExactly(plan, path, m.role, m.declaration); }
    forall role | role != Waiver && Downstream(plan.Dimensions(role), path) ensures m.Inherited? && m.role == role {
      var d :| d in plan.Dimensions(role) && AliasRoot(path, d);
      InheritedExactly(plan, path, role, d);
      RoleIsUnique(plan, path, m, Inherited(role, d));
    }
  }

  /** All direct declarations that cover one path agree on its role. */
  lemma {:induction false} CoveringDeclarationsAgree(plan: Plan, path: string, ra: Role, a: string, rb: Role, b: string)
    requires Accepted(plan)
    requires a in plan.Dimensions(ra) && b in plan.Dimensions(rb)
    requires PathCovers(a, path) && PathCovers(b, path)
    ensures ra == rb
  {
    OverlapIffSharedPath(a, b);
  }

  /** The letters that tell the three alias tables apart: positions 9 and, below `identity`, 18. */
  predicate InFamily(i: nat, path: string) {
    && |path| > 9
    && (path[9] == 'i' ==> |path| > 18)
    && match i
       case 0 => path[9] == 'm' || (path[9] == 'i' && path[18] in {'m', 't', 'c'})
       case 1 => path[9] == 'r' || path[9] == 'c' || (path[9] == 'i' && path[18] in {'r', 'a', 'e'})
       case _ => path[9] == 's'
  }

  lemma {:induction false} AliasFamily(i: nat, path: string)
    requires i < |ALIASES| && AliasCovers(i, path)
    ensures InFamily(i, path)
  {
    var j :| 0 <= j < |ALIASES[i].1| && PathCovers(ALIASES[i].1[j], path);
    var a := ALIASES[i].1[j];
    assert a <= path && InFamily(i, a);
    assert path[9] == a[9] && (path[9] == 'i' ==> path[18] == a[18]);
  }

  lemma {:induction false} AliasesDisjoint(path: string, i: nat, j: nat)
    requires i < |ALIASES| && j < |ALIASES|
    requires AliasCovers(i, path) && AliasCovers(j, path)
    ensures i == j
  {
    AliasFamily(i, path);
    AliasFamily(j, path);
  }

  /** Every path has exactly one role, whichever way ties and alias tables are ordered. */
  lemma {:induction false} RoleIsUnique(plan: Plan, path: string, m: RoleMatch, n: RoleMatch)
    requires Accepted(plan)
    requires RoleIs(plan, path, m) && RoleIs(plan, path, n)
    ensures m == n
  {
    if m.Direct? && n.Direct? {
      MostSpecificIsUnique(plan, path, m.role, m.declaration, n.role, n.declaration);
    } else if m.Inherited? && n.Inherited? {
      InheritanceIsUnique(plan, path, m.role, m.declaration, n.role, n.declaration);
    }
  }

  lemma {:induction false} MostSpecificIsUnique(plan: Plan, path: string, ra: Role, a: string, rb: Role, b: string)
    requires Accepted(plan)
    requires MostSpecific(plan, path, ra, a) && MostSpecific(plan, path, rb, b)
    ensures ra == rb && a == b
  {
    CoveringDeclarationsAgree(plan, path, ra, a, rb, b);
    assert a == path[..|a|] && b == path[..|b|];
  }

  lemma {:induction false} InheritanceIsUnique(plan: Plan, path: string, ra: Role, a: string, rb: Role, b: string)
    requires Inherits(plan, path, ra, a) && Inherits(plan, path, rb, b)
    ensures ra == rb && a == b
  {
    var i: nat :| InheritsVia(plan, path, i, ra, a);
    var j: nat :| InheritsVia(plan, path, j, rb, b);
    AliasesDisjoint(path, i, j);
  }

  /** The declarations in an order of non-increasing length; ties may come in any order. */
  ghost predicate SpecificityOrder(plan: Plan, direct: seq<(string, Role)>) {
    && (forall d, role :: (d, role) in direct <==> d in plan.Dimensions(role))
    && (forall i, j :: 0 <= i < j < |direct| ==> |direct[i].0| >= |direct[j].0|)
  }

  method RoleForPath(plan: Plan, path: string, direct: seq<(string, Role)>) returns (m: RoleMatch)
    requires SpecificityOrder(plan, direct)
    ensures RoleIs(plan, path, m)
  {
    for i := 0 to |direct|
      invariant forall j :: 0 <= j < i ==> !PathCovers(direct[j].0, path)
    {
      var (declaration, role) := direct[i];
      if PathCovers(declaration, path) {
        assert (declaration, role) in direct;
        forall r, e | Declares(plan, path, r, e) ensures |e| <= |declaration| {
          assert (e, r) in direct;
        }
        return Direct(role, declaration);
      }
    }
    forall r, e ensures !Declares(plan, path, r, e) {
      assert e in plan.Dimensions(r) ==> (e, r) in direct;
    }
    for i := 0 to |ALIASES|
      invariant forall k: nat, role, d :: k < i ==> !InheritsVia(plan, path, k, role, d)
    {
      var inherited := InheritableRole(plan, ALIASES[i].0);
      if inherited.Some? && AliasCovers(i, path) {
        assert InheritsVia(plan, path, i, inherited.value, ALIASES[i].0);
        return Inherited(inherited.value, ALIASES[i].0);
      }
    }
    return Unassigned;
  }
}
