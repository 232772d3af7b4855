/** Acceptance policies: what a criterion may observe, and what the decision of a policy means. */
module Policies {
  import opened Wrappers
  import opened Records
  import opened Study

  /** What a target reads: a metric in exact units, a named fact, or the analysis status. */
  datatype Kind =
    | NumberKind(metric: MetricDefinition, aggregation: string, divisor: real, low: Option<real>, high: Option<real>)
    | BooleanKind(fact: string)
    | StatusKind

  datatype Target = Target(
    version: string, unit: string, kind: Kind, analysis: string, analysisVersion: string, evidenceSchema: string)

  datatype Criterion = Criterion(
    target: string, version: string, unit: Option<string>, minimum: Option<real>, maximum: Option<real>,
    equals: Option<Datum>)

  datatype Decision = Pass | Fail | InsufficientEvidence | NotEvaluated

  const STATUS_NAMES: set<string> := {"completed", "skipped", "failed"}

  // ----- which criteria and policies can be built -----

  ghost predicate BoundFits(bound: Option<real>, low: Option<real>, high: Option<real>) {
    && (bound.Some? && low.Some? ==> low.value <= bound.value)
    && (bound.Some? && high.Some? ==> bound.value <= high.value)
  }

  ghost predicate CriterionOk(targets: map<string, Target>, c: Criterion) {
    && c.target in targets && c.version == targets[c.target].version
    && (c.unit.Some? ==> c.unit.value == targets[c.target].unit)
    && match targets[c.target].kind
       case NumberKind(_, _, _, low, high) =>
         && c.equals.None? && (c.minimum.Some? || c.maximum.Some?)
         && BoundFits(c.minimum, low, high) && BoundFits(c.maximum, low, high)
         && (c.minimum.Some? && c.maximum.Some? ==> c.minimum.value <= c.maximum.value)
       case BooleanKind(_) => c.minimum.None? && c.maximum.None? && c.equals.Some? && c.equals.value.Flag?
       case StatusKind =>
         && c.minimum.None? && c.maximum.None?
         && c.equals.Some? && c.equals.value.Text? && c.equals.value.text in STATUS_NAMES
  }

  ghost predicate PolicyOk(targets: map<string, Target>, criteria: seq<Criterion>) {
    && criteria != []
    && (forall i :: 0 <= i < |criteria| ==> CriterionOk(targets, criteria[i]))
    && (forall i, j :: 0 <= i < j < |criteria| ==> criteria[i].target != criteria[j].target)
  }

  method CheckBound(bound: Option<real>, low: Option<real>, high: Option<real>) returns (fits: bool)
    ensures fits <==> BoundFits(bound, low, high)
  {
    if bound.None? { return true; }
    if low.Some? && bound.value < low.value { return false; }
    if high.Some? && bound.value > high.value { return false; }
    return true;
  }

  method CheckCriterion(targets: map<string, Target>, c: Criterion) returns (accepted: bool)
    ensures accepted <==> CriterionOk(targets, c)
  {
    if c.target !in targets { return false; }
    var target := targets[c.target];
    if c.version != target.version { return false; }
    if c.unit.Some? && c.unit.value != target.unit { return false; }
    match target.kind {
      case NumberKind(_, _, _, low, high) =>
        if c.equals.Some? || (c.minimum.None? && c.maximum.None?) { return false; }
        var minimumFits := CheckBound(c.minimum, low, high);
        var maximumFits := CheckBound(c.maximum, low, high);
        if !minimumFits || !maximumFits { return false; }
        return c.minimum.None? || c.maximum.None? || c.minimum.value <= c.maximum.value;
      case BooleanKind(_) =>
        return c.minimum.None? && c.maximum.None? && c.equals.Some? && c.equals.value.Flag?;
      case StatusKind =>
        if c.minimum.Some? || c.maximum.Some? || c.equals.None? || !c.equals.value.Text? { return false; }
        return c.equals.value.text in STATUS_NAMES;
    }
  }

  /** The policy constructor: the set of targets seen so far decides duplicates. */
  method MakePolicy(targets: map<string, Target>, criteria: seq<Criterion>) returns (accepted: bool)
    ensures accepted <==> PolicyOk(targets, criteria)
  {
    if criteria == [] { return false; }
    var seen := {};
    for i := 0 to |criteria|
      invariant seen == set j | 0 <= j < i :: criteria[j].target
      invariant forall j :: 0 <= j < i ==> CriterionOk(targets, criteria[j])
      invariant forall j, k :: 0 <= j < k < i ==> criteria[j].target != criteria[k].target
    {
      var fits := CheckCriterion(targets, criteria[i]);
      if !fits { return false; }
      if criteria[i].target in seen { return false; }
      seen := seen + {criteria[i].target};
    }
    return true;
  }

  // ----- observing one target -----

  ghost predicate Usable(target: Target, a: Analysis) {
    a.version == target.analysisVersion && a.status == Done && a.result.Some?
  }

  ghost predicate Says(m: Measured, key: string, text: string) {
    key in m.evidence && m.evidence[key] == Text(text)
  }

  /** The evidence names the schema, the method and the method version the target asks for. */
  ghost predicate Documented(target: Target, m: Measured) {
    && Says(m, "schema", target.evidenceSchema) && Says(m, "method", target.analysis)
    && Says(m, "method_version", target.analysisVersion)
  }

  /**
   * The analysis shows `v`: its status, a documented flag, or a documented number in the target's unit, of the same
   * metric and aggregation, with full coverage and within the domain.
   */
  ghost predicate Shows(target: Target, a: Analysis, v: Datum) {
    && Usable(target, a)
    && match target.kind
       case StatusKind => v == Text("completed")
       case BooleanKind(fact) =>
         Documented(target, a.result.value) && v.Flag? && fact in a.result.value.evidence
         && a.result.value.evidence[fact] == v
       case NumberKind(metric, aggregation, divisor, low, high) =>
         && divisor != 0.0 && Documented(target, a.result.value) && metric.name in a.result.value.metrics
         && var summary := a.result.value.metrics[metric.name];
         && summary.definition == metric && summary.aggregation == aggregation && summary.coverage == Number(1.0)
         && summary.value.Number? && v == Number(summary.value.number / divisor)
         && (low.Some? ==> low.value <= v.number) && (high.Some? ==> v.number <= high.value)
  }

  /** Exactly one analysis has the target's name, and it shows `v`. */
  ghost predicate Observes(target: Target, analyses: seq<Analysis>, v: Datum) {
    exists i :: 0 <= i < |analyses| && OnlyMatch(target, analyses, i) && Shows(target, analyses[i], v)
  }

  ghost predicate OnlyMatch(target: Target, analyses: seq<Analysis>, i: nat)
    requires i < |analyses|
  {
    forall j :: 0 <= j < |analyses| ==> (analyses[j].name == target.analysis <==> j == i)
  }

  method EvidenceIs(m: Measured, key: string, text: string) returns (same: bool)
    ensures same <==> Says(m, key, text)
  {
    return key in m.evidence && m.evidence[key] == Text(text);
  }

  method ObserveAnalysis(target: Target, a: Analysis) returns (value: Option<Datum>)
    requires target.kind.NumberKind? ==> target.kind.divisor != 0.0
    ensures forall v :: value == Some(v) <==> Shows(target, a, v)
  {
    if a.version != target.analysisVersion { return None; }
    if a.status != Done || a.result.None? { return None; }
    if target.kind.StatusKind? { return Some(Text("completed")); }
    var m := a.result.value;
    var schema := EvidenceIs(m, "schema", target.evidenceSchema);
    var method_ := EvidenceIs(m, "method", target.analysis);
    var version := EvidenceIs(m, "method_version", target.analysisVersion);
    if !schema || !method_ || !version { return None; }
    match target.kind {
      case BooleanKind(fact) =>
        if fact !in m.evidence || !m.evidence[fact].Flag? { return None; }
        return Some(m.evidence[fact]);
      case NumberKind(metric, aggregation, divisor, low, high) =>
        if metric.name !in m.metrics { return None; }
        var summary := m.metrics[metric.name];
        if summary.definition != metric || summary.aggregation != aggregation { return None; }
        if summary.coverage != Number(1.0) { return None; }
        if !summary.value.Number? { return None; }
        var number := summary.value.number / divisor;
        if low.Some? && number < low.value { return None; }
        if high.Some? && number > high.value { return None; }
        return Some(Number(number));
    }
  }

  method Observe(target: Target, analyses: seq<Analysis>) returns (value: Option<Datum>)
    requires target.kind.NumberKind? ==> target.kind.divisor != 0.0
    ensures forall v :: value == Some(v) <==> Observes(target, analyses, v)
  {
    var matches: seq<nat> := [];
    for i := 0 to |analyses|
      invariant forall k :: k in matches <==> 0 <= k < i && analyses[k].name == target.analysis
      invariant forall a :: 0 <= a < |matches| ==> matches[a] < i
      invariant forall a, b :: 0 <= a < b < |matches| ==> matches[a] < matches[b]
    {
      if analyses[i].name == target.analysis { matches := matches + [i]; }
    }
    assert forall k :: 0 <= k < |matches| ==> matches[k] in matches;
    if |matches| != 1 {
      assert |matches| > 1 ==> matches[0] != matches[1];
      assert forall i :: 0 <= i < |analyses| && OnlyMatch(target, analyses, i) ==> i in matches;
      return None;
    }
    var only := matches[0];
    assert only in matches;
    assert OnlyMatch(target, analyses, only);
    value := ObserveAnalysis(target, analyses[only]);
    assert forall i :: 0 <= i < |analyses| && OnlyMatch(target, analyses, i) ==> i == only;
  }

  lemma {:induction false} ObservationIsUnique(target: Target, analyses: seq<Analysis>, v: Datum, w: Datum)
    requires Observes(target, analyses, v) && Observes(target, analyses, w)
    ensures v == w
  {
    var i :| 0 <= i < |analyses| && OnlyMatch(target, analyses, i) && Shows(target, analyses[i], v);
    var j :| 0 <= j < |analyses| && OnlyMatch(target, analyses, j) && Shows(target, analyses[j], w);
    assert i == j;
  }

  // ----- the decision -----

  /** What a criterion asks of the observed value: the expected one, or a number within its bounds. */
  ghost predicate Satisfies(kind: Kind, c: Criterion, v: Datum) {
    if kind.NumberKind? then
      && v.Number? && (c.minimum.Some? ==> c.minimum.value <= v.number)
      && (c.maximum.Some? ==> v.number <= c.maximum.value)
    else c.equals == Some(v)
  }

  /** A registry whose numeric targets have a usable divisor. */
  predicate TargetsOk(targets: map<string, Target>) {
    forall t :: t in targets && targets[t].kind.NumberKind? ==> targets[t].kind.divisor > 0.0
  }

  ghost predicate Observable(target: Target, analyses: seq<Analysis>) {
    exists v :: Observes(target, analyses, v)
  }

  /** The target is observed and its value satisfies the criterion. */
  ghost predicate Met(target: Target, c: Criterion, analyses: seq<Analysis>) {
    exists v :: Observes(target, analyses, v) && Satisfies(target.kind, c, v)
  }

  ghost predicate AllObservable(targets: map<string, Target>, criteria: seq<Criterion>, analyses: seq<Analysis>) {
    forall c :: c in criteria ==> c.target in targets && Observable(targets[c.target], analyses)
  }

  ghost predicate AllMet(targets: map<string, Target>, criteria: seq<Criterion>, analyses: seq<Analysis>) {
    forall c :: c in criteria ==> c.target in targets && Met(targets[c.target], c, analyses)
  }

  /** What the row of one criterion means. */
  ghost predicate RowFits(target: Target, c: Criterion, analyses: seq<Analysis>, verified: bool, row: Decision) {
    && (row == NotEvaluated <==> !verified)
    && (row == InsufficientEvidence <==> verified && !Observable(target, analyses))
    && (row == Pass <==> verified && Met(target, c, analyses))
    && (row == Fail <==> verified && Observable(target, analyses) && !Met(target, c, analyses))
  }

  /** What each decision of a policy means. */
  ghost predicate DecisionFits(
    targets: map<string, Target>, criteria: seq<Criterion>, analyses: seq<Analysis>, verified: bool, d: Decision)
  {
    && (d == NotEvaluated <==> !verified)
    && (d == InsufficientEvidence <==> verified && !AllObservable(targets, criteria, analyses))
    && (d == Pass <==> verified && AllMet(targets, criteria, analyses))
    && (d == Fail <==> verified && AllObservable(targets, criteria, analyses) && !AllMet(targets, criteria, analyses))
  }

  method EvaluateCriterion(targets: map<string, Target>, c: Criterion, analyses: seq<Analysis>, verified: bool)
    returns (row: Decision)
    requires TargetsOk(targets) && c.target in targets
    ensures RowFits(targets[c.target], c, analyses, verified, row)
  {
    if !verified { return NotEvaluated; }
    var target := targets[c.target];
    var value := Observe(target, analyses);
    if value.None? { return InsufficientEvidence; }
    var v := value.value;
    assert Observes(target, analyses, v);
    var passed;
    if target.kind.NumberKind? {
      passed := (c.minimum.None? || v.number >= c.minimum.value) && (c.maximum.None? || v.number <= c.maximum.value);
    } else {
      passed := c.equals == Some(v);
    }
    return if passed then Pass else Fail;
  }

  /** The rows in criterion order, and the conjunction over them. */
  method EvaluatePolicy(targets: map<string, Target>, criteria: seq<Criterion>, analyses: seq<Analysis>, verified: bool)
    returns (decision: Decision, rows: seq<Decision>)
    requires TargetsOk(targets) && PolicyOk(targets, criteria)
    ensures |rows| == |criteria|
    ensures forall k :: 0 <= k < |rows| ==>
      RowFits(targets[criteria[k].target], criteria[k], analyses, verified, rows[k])
    ensures DecisionFits(targets, criteria, analyses, verified, decision)
  {
    rows := [];
    for i := 0 to |criteria|
      invariant |rows| == i
      invariant forall k :: 0 <= k < i ==>
        RowFits(targets[criteria[k].target], criteria[k], analyses, verified, rows[k])
    {
      var row := EvaluateCriterion(targets, criteria[i], analyses, verified);
      rows := rows + [row];
    }
    assert criteria[0] in criteria;
    if !verified { return NotEvaluated, rows; }
    assert AllMet(targets, criteria, analyses) <==> forall k :: 0 <= k < |rows| ==> rows[k] == Pass;
    assert AllObservable(targets, criteria, analyses) <==>
      forall k :: 0 <= k < |rows| ==> rows[k] != InsufficientEvidence;
    if exists k :: 0 <= k < |rows| && rows[k] == InsufficientEvidence { return InsufficientEvidence, rows; }
    if forall k :: 0 <= k < |rows| ==> rows[k] == Pass { return Pass, rows; }
    return Fail, rows;
  }

  // ----- what a criterion asks of the evidence -----

  /** The only analysis of the target's name, in the pinned version, completed. */
  ghost predicate OnlyUsable(target: Target, analyses: seq<Analysis>, i: int) {
    && 0 <= i < |analyses| && analyses[i].name == target.analysis
    && (forall j :: 0 <= j < |analyses| && j != i ==> analyses[j].name != target.analysis)
    && analyses[i].version == target.analysisVersion && analyses[i].status == Done && analyses[i].result.Some?
  }

  lemma {:induction false} OnlyUsableShows(target: Target, analyses: seq<Analysis>, i: int, v: Datum)
    ensures OnlyUsable(target, analyses, i) && Shows(target, analyses[i], v) ==> Observes(target, analyses, v)
    ensures 0 <= i < |analyses| && OnlyMatch(target, analyses, i) && Shows(target, analyses[i], v) ==>
      OnlyUsable(target, analyses, i)
  {
    if OnlyUsable(target, analyses, i) { assert OnlyMatch(target, analyses, i); }
  }

  /**
   * A numeric criterion is met exactly if the only analysis of its target's name documents the metric, completely
   * covered, with a value that lies, in the target's unit, within the domain and the criterion's bounds.
   */
  lemma {:induction false} NumberMetExactly(
      target: Target, c: Criterion, analyses: seq<Analysis>, metric: MetricDefinition, aggregation: string,
      divisor: real, low: Option<real>, high: Option<real>)
    requires target.kind == NumberKind(metric, aggregation, divisor, low, high) && divisor != 0.0
    ensures Met(target, c, analyses) <==>
      exists i :: OnlyUsable(target, analyses, i) && NumberWithin(target, c, analyses[i].result.value)
  {
    if Met(target, c, analyses) {
      var v :| Observes(target, analyses, v) && Satisfies(target.kind, c, v);
      var i :| 0 <= i < |analyses| && OnlyMatch(target, analyses, i) && Shows(target, analyses[i], v);
      OnlyUsableShows(target, analyses, i, v);
      assert NumberWithin(target, c, analyses[i].result.value);
    }
    if i :| OnlyUsable(target, analyses, i) && NumberWithin(target, c, analyses[i].result.value) {
      var x := analyses[i].result.value.metrics[metric.name].value.number / divisor;
      assert Shows(target, analyses[i], Number(x));
      OnlyUsableShows(target, analyses, i, Number(x));
    }
  }

  ghost predicate NumberWithin(target: Target, c: Criterion, m: Measured)
    requires target.kind.NumberKind? && target.kind.divisor != 0.0
  {
    var kind := target.kind;
    && Documented(target, m) && kind.metric.name in m.metrics
    && var summary := m.metrics[kind.metric.name];
    && summary.definition == kind.metric && summary.aggregation == kind.aggregation
    && summary.coverage == Number(1.0) && summary.value.Number?
    && var x := summary.value.number / kind.divisor;
    && (kind.low.Some? ==> kind.low.value <= x) && (kind.high.Some? ==> x <= kind.high.value)
    && (c.minimum.Some? ==> c.minimum.value <= x) && (c.maximum.Some? ==> x <= c.maximum.value)
  }

  /** A boolean criterion is met exactly if that analysis documents the fact with the expected truth value. */
  lemma {:induction false} FactMetExactly(target: Target, c: Criterion, analyses: seq<Analysis>, fact: string)
    requires target.kind == BooleanKind(fact)
    ensures Met(target, c, analyses) <==>
      exists i :: OnlyUsable(target, analyses, i) && FactIs(target, analyses[i].result.value, fact, c.equals)
  {
    if Met(target, c, analyses) {
      var v :| Observes(target, analyses, v) && Satisfies(target.kind, c, v);
      var i :| 0 <= i < |analyses| && OnlyMatch(target, analyses, i) && Shows(target, analyses[i], v);
      OnlyUsableShows(target, analyses, i, v);
    }
    if i :| OnlyUsable(target, analyses, i) && FactIs(target, analyses[i].result.value, fact, c.equals) {
      OnlyUsableShows(target, analyses, i, c.equals.value);
    }
  }

  ghost predicate FactIs(target: Target, m: Measured, fact: string, expected: Option<Datum>) {
    && Documented(target, m) && fact in m.evidence && expected.Some? && expected.value.Flag?
    && m.evidence[fact] == expected.value
  }

  /** The stricter criterion has the same target and expectation, and bounds at least as tight. */
  ghost predicate Stricter(strict: Criterion, c: Criterion) {
    && strict.target == c.target && strict.equals == c.equals
    && (c.minimum.Some? ==> strict.minimum.Some? && strict.minimum.value >= c.minimum.value)
    && (c.maximum.Some? ==> strict.maximum.Some? && strict.maximum.value <= c.maximum.value)
  }

  /** Raising minima and lowering maxima never turns FAIL into PASS, and does not touch what can be observed. */
  lemma {:induction false} StricterNeverPasses(
      targets: map<string, Target>, strict: seq<Criterion>, criteria: seq<Criterion>, analyses: seq<Analysis>,
      verified: bool, before: Decision, after: Decision)
    requires |strict| == |criteria| && forall k :: 0 <= k < |criteria| ==> Stricter(strict[k], criteria[k])
    requires DecisionFits(targets, criteria, analyses, verified, before)
    requires DecisionFits(targets, strict, analyses, verified, after)
    ensures after == Pass ==> before == Pass
    ensures before == Fail ==> after == Fail
    ensures before in {NotEvaluated, InsufficientEvidence} ==> after == before
  {
    forall k | 0 <= k < |criteria| && criteria[k].target in targets
               && Met(targets[criteria[k].target], strict[k], analyses)
      ensures Met(targets[criteria[k].target], criteria[k], analyses)
    {
      assert Stricter(strict[k], criteria[k]);
      var target := targets[criteria[k].target];
      var v :| Observes(target, analyses, v) && Satisfies(target.kind, strict[k], v);
      assert Satisfies(target.kind, criteria[k], v);
    }
    forall k | 0 <= k < |criteria| ensures strict[k] in strict && criteria[k] in criteria
      && strict[k].target == criteria[k].target
    {
      assert Stricter(strict[k], criteria[k]);
    }
    if AllMet(targets, strict, analyses) { assert AllMet(targets, criteria, analyses); }
    assert AllObservable(targets, strict, analyses) <==> AllObservable(targets, criteria, analyses);
  }

  // ----- what the decision does and does not depend on -----

  /** A second analysis under a targeted name never helps: the decision becomes insufficient. */
  lemma {:induction false} AmbiguityIsInsufficient(
      targets: map<string, Target>, criteria: seq<Criterion>, analyses: seq<Analysis>, extra: Analysis, c: Criterion,
      d: Decision)
    requires c in criteria && c.target in targets && extra.name == targets[c.target].analysis
    requires exists a :: a in analyses && a.name == extra.name
    requires DecisionFits(targets, criteria, analyses + [extra], true, d)
    ensures d == InsufficientEvidence
  {
    var more, target := analyses + [extra], targets[c.target];
    var i :| 0 <= i < |analyses| && analyses[i].name == extra.name;
    assert more[i].name == target.analysis && more[|analyses|].name == target.analysis;
    forall k | 0 <= k < |more| ensures !OnlyMatch(target, more, k) {
      assert k != i || k != |analyses|;
    }
    assert !Observable(target, more);
  }

  lemma {:induction false} IrrelevantToTarget(target: Target, analyses: seq<Analysis>, extra: Analysis, v: Datum)
    requires extra.name != target.analysis
    ensures Observes(target, analyses + [extra], v) <==> Observes(target, analyses, v)
  {
    var more := analyses + [extra];
    forall i | 0 <= i < |analyses| ensures OnlyMatch(target, more, i) <==> OnlyMatch(target, analyses, i) {
      if OnlyMatch(target, more, i) {
        forall j | 0 <= j < |analyses| ensures analyses[j].name == target.analysis <==> j == i {
          assert more[j] == analyses[j];
        }
      }
    }
    if Observes(target, analyses, v) {
      var i :| 0 <= i < |analyses| && OnlyMatch(target, analyses, i) && Shows(target, analyses[i], v);
      assert OnlyMatch(target, more, i) && more[i] == analyses[i];
    }
    if Observes(target, more, v) {
      var i :| 0 <= i < |more| && OnlyMatch(target, more, i) && Shows(target, more[i], v);
      assert i != |analyses|;
      assert OnlyMatch(target, analyses, i) && more[i] == analyses[i];
    }
  }

  /** An analysis no criterion targets leaves the decision alone. */
  lemma {:induction false} IrrelevantAnalysisIsIgnored(
      targets: map<string, Target>, criteria: seq<Criterion>, analyses: seq<Analysis>, extra: Analysis, verified: bool,
      before: Decision, after: Decision)
    requires forall c :: c in criteria && c.target in targets ==> extra.name != targets[c.target].analysis
    requires DecisionFits(targets, criteria, analyses, verified, before)
    requires DecisionFits(targets, criteria, analyses + [extra], verified, after)
    ensures before == after
  {
    var more := analyses + [extra];
    forall c | c in criteria && c.target in targets
      ensures Observable(targets[c.target], more) <==> Observable(targets[c.target], analyses)
      ensures Met(targets[c.target], c, more) <==> Met(targets[c.target], c, analyses)
    {
      forall v ensures Observes(targets[c.target], more, v) <==> Observes(targets[c.target], analyses, v) {
        IrrelevantToTarget(targets[c.target], analyses, extra, v);
      }
    }
  }

  /**
   * A status criterion is met exactly when it asks for a completed analysis that is there: a policy cannot accept a
   * skipped or failed one.
   */
  lemma {:induction false} StatusCriterionNeedsCompletion(target: Target, c: Criterion, analyses: seq<Analysis>)
    requires target.kind.StatusKind?
    ensures Met(target, c, analyses) <==>
      c.equals == Some(Text("completed"))
      && exists i :: 0 <= i < |analyses| && OnlyMatch(target, analyses, i) && Usable(target, analyses[i])
  {
    if c.equals == Some(Text("completed"))
       && exists i :: 0 <= i < |analyses| && OnlyMatch(target, analyses, i) && Usable(target, analyses[i]) {
      var i :| 0 <= i < |analyses| && OnlyMatch(target, analyses, i) && Usable(target, analyses[i]);
      assert Shows(target, analyses[i], Text("completed"));
      assert Observes(target, analyses, Text("completed"));
    }
  }

  /** The constructor accepts a criterion that asks for a failed or skipped analysis, although nothing can meet it. */
  lemma {:induction false} UnmeetableStatusIsAccepted(
      targets: map<string, Target>, t: string, status: string, c: Criterion)
    requires t in targets && targets[t].kind.StatusKind? && status in STATUS_NAMES - {"completed"}
    requires c == Criterion(t, targets[t].version, None, None, None, Some(Text(status)))
    ensures PolicyOk(targets, [c]) && forall analyses :: !Met(targets[t], c, analyses)
  {
    forall analyses ensures !Met(targets[t], c, analyses) {
      StatusCriterionNeedsCompletion(targets[t], c, analyses);
    }
  }

  /** A policy passes or fails only when every criterion was observed with exact identity and full coverage. */
  lemma {:induction false} DecisionIsGrounded(
      targets: map<string, Target>, criteria: seq<Criterion>, analyses: seq<Analysis>, verified: bool, d: Decision)
    requires DecisionFits(targets, criteria, analyses, verified, d) && d in {Pass, Fail}
    ensures verified && forall c :: c in criteria ==> c.target in targets && Grounded(targets[c.target], analyses)
  {
    forall c | c in criteria ensures c.target in targets && Grounded(targets[c.target], analyses) {
      if d == Pass { assert Met(targets[c.target], c, analyses); }
      else { assert Observable(targets[c.target], analyses); }
      var v :| Observes(targets[c.target], analyses, v);
      var i :| 0 <= i < |analyses| && OnlyMatch(targets[c.target], analyses, i)
        && Shows(targets[c.target], analyses[i], v);
      OnlyUsableShows(targets[c.target], analyses, i, v);
    }
  }

  /** The target's observation rests on the only analysis of its name. */
  ghost predicate Grounded(target: Target, analyses: seq<Analysis>) {
    exists i, v :: OnlyUsable(target, analyses, i) && Shows(target, analyses[i], v)
  }
}
