/** Run records, and the projection of a record onto its comparison-relevant evidence. */
module Records {
  import opened Paths
  import opened Wrappers
  import opened Evidence

  datatype RunStatus =
    | Planned | PreflightFailed | Running | Partial | Completed | Failed | TimedOut | Cancelled | Interrupted

  datatype MetricDefinition = MetricDefinition(
    name: string, unit: string, direction: string, method_: string, version: string)

  datatype RunSpec = RunSpec(
    model: Value, runtime: Value, scenario: Value, measurements: Value, treatments: Value, trialPolicy: Value,
    environmentSelector: Value)

  datatype Record = Record(
    requested: RunSpec,
    resolved: map<string, Value>,
    observed: map<string, Value>,
    status: RunStatus,
    metrics: map<string, MetricDefinition>)

  const REQUESTED: set<string> :=
    {"model", "runtime", "scenario", "measurements", "treatments", "trial_policy", "environment_selector"}
  const RESOLVED_EXCLUDED: set<string> := {"support"}
  const OBSERVED_EXCLUDED: set<string> := {"invocations", "reset_count", "closed", "cleanup"}
  const INVOCATION_FIELDS: set<string> := {"prompt_sha256", "rendered_prompt_sha256", "system_sha256", "generation"}
  const COMPONENTS: set<string> := {"model", "tokenizer", "runtime", "chat_template", "applied"}

  function Requested(spec: RunSpec): (m: map<string, Value>)
    ensures m.Keys == REQUESTED
  {
    map["model" := spec.model, "runtime" := spec.runtime, "scenario" := spec.scenario,
        "measurements" := spec.measurements, "treatments" := spec.treatments,
        "trial_policy" := spec.trialPolicy, "environment_selector" := spec.environmentSelector]
  }

  // ----- the projection, as the engine builds it -----

  function WithoutSource(v: Value): Value {
    if v.Map? then Map(v.fields - {"source"}) else v
  }

  function IdentityView(v: Value): Value {
    if !v.Map? then v
    else Map(map k | k in v.fields && k != "reasons" ::
               if k in COMPONENTS then WithoutSource(v.fields[k]) else v.fields[k])
  }

  function RowView(row: Value): Option<Value> {
    if row.Map? && row.fields.Keys * INVOCATION_FIELDS != {} then
      Some(Map(map k | k in row.fields && k in INVOCATION_FIELDS :: row.fields[k]))
    else None
  }

  /** The first `n` invocation rows that carry identity fields, keyed by their decimal index. */
  ghost function RowViews(rows: seq<Value>, n: nat): (m: map<string, Value>)
    requires n <= |rows|
  {
    if n == 0 then map[]
    else
      var m := RowViews(rows, n - 1);
      match RowView(rows[n - 1])
      case Some(view) => m[Decimal(n - 1) := view]
      case None => m
  }

  lemma {:induction false} DecimalInjective(i: nat, j: nat)
    requires Decimal(i) == Decimal(j)
    ensures i == j
  {
    NumberOfDecimal(i);
    NumberOfDecimal(j);
  }

  /** The projected rows are the ones with identity fields, each under its own decimal index. */
  ghost predicate RowsListed(rows: seq<Value>, n: nat, views: map<string, Value>)
    requires n <= |rows|
  {
    && (forall i :: 0 <= i < n && RowView(rows[i]).Some? ==>
          Decimal(i) in views && views[Decimal(i)] == RowView(rows[i]).value)
    && (forall q :: q in views ==> exists i :: 0 <= i < n && q == Decimal(i) && RowView(rows[i]).Some?)
  }

  lemma {:induction false} OneMoreRow(rows: seq<Value>, n: nat, views: map<string, Value>, view: Value)
    requires n < |rows| && RowsListed(rows, n, views) && RowView(rows[n]) == Some(view)
    ensures RowsListed(rows, n + 1, views[Decimal(n) := view])
  {
    forall i | 0 <= i < n ensures Decimal(i) != Decimal(n) {
      if Decimal(i) == Decimal(n) { DecimalInjective(i, n); }
    }
  }

  lemma {:induction false} RowSkipped(rows: seq<Value>, n: nat, views: map<string, Value>)
    requires n < |rows| && RowsListed(rows, n, views) && RowView(rows[n]).None?
    ensures RowsListed(rows, n + 1, views)
  {}

  lemma {:induction false} RowViewsContents(rows: seq<Value>, n: nat, views: map<string, Value>)
    requires n <= |rows| && views == RowViews(rows, n)
    ensures RowsListed(rows, n, views)
  {
    if n > 0 {
      var before := RowViews(rows, n - 1);
      RowViewsContents(rows, n - 1, before);
      match RowView(rows[n - 1]) {
        case Some(view) => OneMoreRow(rows, n - 1, before, view);
        case None => RowSkipped(rows, n - 1, before);
      }
    }
  }

  ghost predicate HasIdentityRow(observed: map<string, Value>) {
    && "invocations" in observed && observed["invocations"].Seq?
    && exists i :: 0 <= i < |observed["invocations"].items| && RowView(observed["invocations"].items[i]).Some?
  }

  ghost predicate AllRowsListed(rows: seq<Value>, views: map<string, Value>) {
    RowsListed(rows, |rows|, views)
  }

  /** `None` exactly when no row of a sequence carries identity fields; otherwise each such row under its own index. */
  method InvocationIdentity(observed: map<string, Value>) returns (r: Option<Value>)
    ensures r == InvocationView(observed)
    ensures r.Some? <==> HasIdentityRow(observed)
    ensures r.Some? ==> r.value.Map? && AllRowsListed(observed["invocations"].items, r.value.fields)
  {
    if "invocations" !in observed || !observed["invocations"].Seq? { return None; }
    var rows := observed["invocations"].items;
    var projected: map<string, Value> := map[];
    for i := 0 to |rows|
      invariant projected == RowViews(rows, i)
    {
      var view := RowView(rows[i]);
      if view.Some? { projected := projected[Decimal(i) := view.value]; }
    }
    RowViewsContents(rows, |rows|, projected);
    return if projected == map[] then None else Some(Map(projected));
  }

  ghost function InvocationView(observed: map<string, Value>): Option<Value> {
    if "invocations" in observed && observed["invocations"].Seq?
       && RowViews(observed["invocations"].items, |observed["invocations"].items|) != map[] then
      Some(Map(RowViews(observed["invocations"].items, |observed["invocations"].items|)))
    else None
  }

  ghost function ObservedView(observed: map<string, Value>): map<string, Value> {
    var kept := map k | k in observed && k !in OBSERVED_EXCLUDED ::
                  if k == "identity" then IdentityView(observed[k]) else observed[k];
    match InvocationView(observed)
    case Some(view) => kept["invocations" := view]
    case None => kept
  }

  /** The same values under prefixed keys. */
  function Prefixed(prefix: string, m: map<string, Value>): (r: map<string, Value>)
    ensures forall k :: k in m ==> prefix + k in r && r[prefix + k] == m[k]
    ensures forall q :: q in r ==> prefix <= q && q[|prefix|..] in m && r[q] == m[q[|prefix|..]]
  {
    map q | q in (set k | k in m :: prefix + k) :: assert exists k :: k in m && q == prefix + k; m[q[|prefix|..]]
  }

  ghost function Roots(r: Record): map<string, Value> {
    Requested(r.requested) + Prefixed("resolved.", r.resolved - RESOLVED_EXCLUDED)
    + Prefixed("observed.", ObservedView(r.observed))
  }

  method ProjectObserved(observed: map<string, Value>) returns (kept: map<string, Value>)
    ensures kept == ObservedView(observed)
  {
    kept := map k | k in observed && k !in OBSERVED_EXCLUDED ::
              if k == "identity" then IdentityView(observed[k]) else observed[k];
    var invocations := InvocationIdentity(observed);
    if invocations.Some? {
      kept := kept["invocations" := invocations.value];
    }
  }
}
