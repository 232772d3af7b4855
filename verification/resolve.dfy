/** Looking a declared dimension up in the raw record, longest dotted key first. */
module Resolve {
  import opened Paths
  import opened Wrappers
  import opened Evidence
  import opened Records

  datatype Lookup = UnknownDimension | Missing | Found(value: Value)

  /** The largest `end` whose joined segments name a key, or 0: `_mapping_lookup`. */
  function LongestKey(keys: set<string>, segments: seq<string>, end: nat): (n: nat)
    requires end <= |segments|
    ensures n <= end
    ensures n > 0 ==> Join(segments[..n]) in keys
    ensures forall m :: n < m <= end ==> Join(segments[..m]) !in keys
  {
    if end == 0 then 0
    else if Join(segments[..end]) in keys then end
    else LongestKey(keys, segments, end - 1)
  }

  /** Walk down from `v`; `None` is the missing sentinel. */
  function ResolveIn(v: Value, segments: seq<string>): Option<Value>
    decreases |segments|
  {
    if segments == [] then Some(v)
    else match v
      case Map(fields) =>
        var end := LongestKey(fields.Keys, segments, |segments|);
        if end == 0 then None else ResolveIn(fields[Join(segments[..end])], segments[end..])
      case Seq(items) =>
        if IsDigits(segments[0]) && Number(segments[0]) < |items| then
          ResolveIn(items[Number(segments[0])], segments[1..])
        else None
      case Leaf(_) => None
  }

  function RootValue(r: Record, root: string): Option<Value> {
    if root == "resolved" then Some(Map(r.resolved))
    else if root == "observed" then Some(Map(r.observed))
    else if root in REQUESTED then Some(Requested(r.requested)[root])
    else None
  }

  function ResolveDimension(r: Record, dimension: string): Lookup {
    var segments := Split(dimension);
    if exists i :: 0 <= i < |segments| && segments[i] == "" then UnknownDimension
    else match RootValue(r, segments[0])
      case None => UnknownDimension
      case Some(root) =>
        match ResolveIn(root, segments[1..])
        case None => Missing
        case Some(v) => Found(v)
  }

  lemma {:induction false} MapStep(fields: map<string, Value>, rest: seq<string>, end: nat)
    requires rest != [] && end == LongestKey(fields.Keys, rest, |rest|)
    ensures end == 0 ==> ResolveIn(Map(fields), rest) == None
    ensures end > 0 ==> ResolveIn(Map(fields), rest) == ResolveIn(fields[Join(rest[..end])], rest[end..])
  {}

  lemma {:induction false} SeqStep(items: seq<Value>, rest: seq<string>)
    requires rest != []
    ensures
      if IsDigits(rest[0]) && Number(rest[0]) < |items| then
        ResolveIn(Seq(items), rest) == ResolveIn(items[Number(rest[0])], rest[1..])
      else ResolveIn(Seq(items), rest) == None
  {}

  /** `_resolve_dimension`: one loop over `current` and `index`. */
  method ResolveByLoop(r: Record, dimension: string) returns (result: Lookup)
    ensures result == ResolveDimension(r, dimension)
  {
    var segments := Split(dimension);
    if exists i :: 0 <= i < |segments| && segments[i] == "" { return UnknownDimension; }
    var root := RootValue(r, segments[0]);
    if root.None? { return UnknownDimension; }
    var current, index := root.value, 1;
    while index < |segments|
      invariant 1 <= index <= |segments|
      invariant ResolveIn(root.value, segments[1..]) == ResolveIn(current, segments[index..])
    {
      var rest := segments[index..];
      match current {
        case Map(fields) =>
          var end := LongestKey(fields.Keys, rest, |rest|);
          MapStep(fields, rest, end);
          if end == 0 { return Missing; }
          assert rest[end..] == segments[index + end..];
          current, index := fields[Join(rest[..end])], index + end;
        case Seq(items) =>
          SeqStep(items, rest);
          if !IsDigits(rest[0]) || Number(rest[0]) >= |items| { return Missing; }
          assert rest[1..] == segments[index + 1..];
          current, index := items[Number(rest[0])], index + 1;
        case Leaf(_) => return Missing;
      }
    }
    return Found(current);
  }

  // ----- the record as one raw tree -----

  function RawTree(r: Record): (v: Value)
    ensures v.Map? && v.fields.Keys == REQUESTED + {"resolved", "observed"}
  {
    Map(Requested(r.requested)["resolved" := Map(r.resolved)]["observed" := Map(r.observed)])
  }

  lemma {:induction false} RootKeysAreDotFree(k: string)
    requires k in REQUESTED + {"resolved", "observed"}
    ensures '.' !in k && k != ""
  {
  }

  /** What the record holds under one segment: a field of the request, by its name in the file, or a mapping. */
  ghost function FieldNamed(r: Record, name: string): Option<Value> {
    match name
    case "model" => Some(r.requested.model)
    case "runtime" => Some(r.requested.runtime)
    case "scenario" => Some(r.requested.scenario)
    case "measurements" => Some(r.requested.measurements)
    case "treatments" => Some(r.requested.treatments)
    case "trial_policy" => Some(r.requested.trialPolicy)
    case "environment_selector" => Some(r.requested.environmentSelector)
    case "resolved" => Some(Map(r.resolved))
    case "observed" => Some(Map(r.observed))
    case _ => None
  }

  lemma {:induction false} RootValueIsField(r: Record, name: string)
    ensures RootValue(r, name) == FieldNamed(r, name)
  {}

  /** The dimensions of one segment are those fields; every other name is unknown. */
  lemma {:induction false} RootsAreFields(r: Record, name: string)
    requires name != "" && '.' !in name
    ensures
      var field := FieldNamed(r, name);
      ResolveDimension(r, name) == if field.Some? then Found(field.value) else UnknownDimension
  {
    SplitDotFree(name);
    assert [name][1..] == [];
    RootValueIsField(r, name);
  }

  /** A single dot-free segment is the only key a dot-free mapping can offer. */
  lemma {:induction false} LongestKeyDotFree(keys: set<string>, segments: seq<string>, end: nat)
    requires 1 <= end <= |segments|
    requires forall k :: k in keys ==> '.' !in k
    ensures LongestKey(keys, segments, end) == if segments[0] in keys then 1 else 0
  {
    if end == 1 {
      assert segments[..1] == [segments[0]];
    } else {
      assert segments[..end] == [segments[0]] + segments[1..end];
      JoinConcat([segments[0]], segments[1..end]);
      assert Join(segments[..end])[|segments[0]|] == '.';
      LongestKeyDotFree(keys, segments, end - 1);
    }
  }

  /** Away from malformed and unknown dimensions, lookup is a walk through the raw tree. */
  lemma {:induction false} ResolveIsTreeWalk(r: Record, dimension: string, v: Value)
    requires ResolveDimension(r, dimension) == Found(v)
    ensures ResolveIn(RawTree(r), Split(dimension)) == Some(v)
    ensures forall i :: 0 <= i < |Split(dimension)| ==> Split(dimension)[i] != ""
  {
    var segments := Split(dimension);
    var keys := RawTree(r).fields.Keys;
    forall k | k in keys ensures '.' !in k { RootKeysAreDotFree(k); }
    LongestKeyDotFree(keys, segments, |segments|);
    assert segments[0] in keys;
    assert Join(segments[..1]) == segments[0];
  }
}
