/** The top-k estimate over paired responses, and its aggregation over chunks and positions. */
module TopKAggregate {
  import opened Wrappers
  import opened TopKSpec
  import opened TopK

  datatype Failure = ChunkCounts | PositionCounts(chunk: nat) | OneSided(chunk: nat, position: nat)
                   | Invalid(chunk: nat, position: nat) | NothingScored

  /** The value of a key, or a default. */
  function Lookup(p: Position, id: int, default: real): real {
    if p == [] then default else if p[0].0 == id then p[0].1 else Lookup(p[1..], id, default)
  }

  // ----- identifiers in ascending order -----

  predicate StrictlyAscending(ids: seq<int>) { forall i, j :: 0 <= i < j < |ids| ==> ids[i] < ids[j] }

  function Insert(ids: seq<int>, x: int): (r: seq<int>)
    ensures forall y :: y in r <==> y in ids || y == x
  {
    if ids == [] || x < ids[0] then [x] + ids
    else if x == ids[0] then ids
    else [ids[0]] + Insert(ids[1..], x)
  }

  lemma {:induction false} InsertKeepsOrder(ids: seq<int>, x: int)
    requires StrictlyAscending(ids)
    ensures StrictlyAscending(Insert(ids, x))
  {
    if ids != [] && x > ids[0] {
      InsertKeepsOrder(ids[1..], x);
      var rest := Insert(ids[1..], x);
      forall j | 0 <= j < |rest| ensures ids[0] < rest[j] {
        assert rest[j] in rest;
      }
    }
  }

  /** The tokens of either side, in order and without repetition. */
  function UnionIds(p: Position, q: Position): (ids: seq<int>)
    ensures StrictlyAscending(ids)
    ensures forall x :: x in ids <==> Has(p, x) || Has(q, x)
    decreases |p| + |q|
  {
    if p != [] then
      InsertKeepsOrder(UnionIds(p[1..], q), p[0].0);
      Insert(UnionIds(p[1..], q), p[0].0)
    else if q != [] then
      InsertKeepsOrder(UnionIds(p, q[1..]), q[0].0);
      Insert(UnionIds(p, q[1..]), q[0].0)
    else []
  }

  lemma {:induction false} LookupGives(p: Position, id: int, floor: real)
    ensures Gives(p, id, floor, Lookup(p, id, floor))
  {
    if p != [] && p[0].0 != id {
      LookupGives(p[1..], id, floor);
      assert p == [p[0]] + p[1..];
      if Has(p[1..], id) {
        var x := Lookup(p[1..], id, floor);
        var i :| 0 <= i < |p| - 1 && p[1..][i] == (id, x) && forall j :: 0 <= j < i ==> p[1..][j].0 != id;
        assert p[i + 1] == (id, x) && forall j :: 1 <= j < i + 1 ==> p[j] == p[1..][j - 1];
      } else {
        forall i | 0 <= i < |p| ensures p[i].0 != id { if i > 0 { assert p[i] == p[1..][i - 1]; } }
      }
    }
  }

  // ----- one position -----

  function Values(p: Position, ids: seq<int>, floor: real): (r: seq<real>)
    ensures |r| == |ids|
  {
    seq(|ids|, i requires 0 <= i < |ids| => Lookup(p, ids[i], floor))
  }

  lemma {:induction false} ValuesAreGiven(p: Position, ids: seq<int>, floor: real)
    ensures forall i :: 0 <= i < |ids| ==> Gives(p, ids[i], floor, Values(p, ids, floor)[i])
  {
    forall i | 0 <= i < |ids| ensures Gives(p, ids[i], floor, Values(p, ids, floor)[i]) {
      LookupGives(p, ids[i], floor);
    }
  }

  /** The normalised view of one side over the given identifiers. */
  function Side(logs: Logs, p: Position, ids: seq<int>, floor: real): (r: seq<real>)
    ensures |r| == |ids| + 1
  {
    Normalized(logs, Values(p, ids, floor), floor)
  }

  function Estimate(logs: Logs, reference: Position, candidate: Position, floor: real): real {
    var ids := UnionIds(reference, candidate);
    Divergence(logs, Side(logs, reference, ids, floor), Side(logs, candidate, ids, floor))
  }

  /** The estimate is a divergence: never negative, and zero exactly when both normalised sides agree. */
  lemma {:induction false} EstimateIsDivergence(logs: Logs, reference: Position, candidate: Position, floor: real)
    requires logs.Laws()
    ensures Estimate(logs, reference, candidate, floor) >= 0.0
    ensures Estimate(logs, reference, candidate, floor) == 0.0 <==>
      Side(logs, reference, UnionIds(reference, candidate), floor)
        == Side(logs, candidate, UnionIds(reference, candidate), floor)
  {
    var ids := UnionIds(reference, candidate);
    var p, q := Side(logs, reference, ids, floor), Side(logs, candidate, ids, floor);
    NormalizedIsDistribution(logs, Values(reference, ids, floor), floor);
    NormalizedIsDistribution(logs, Values(candidate, ids, floor), floor);
    Gibbs(logs, p, q);
    if p == q { SameHasNoDivergence(logs, p); }
  }

  /** The estimate is the divergence of the candidate's distribution from the reference's. */
  lemma {:induction false} EstimateIsKl(logs: Logs, reference: Position, candidate: Position, floor: real)
    requires logs.Laws()
    ensures IsKl(logs, reference, candidate, floor, Estimate(logs, reference, candidate, floor))
  {
    var ids := UnionIds(reference, candidate);
    var p, q := Side(logs, reference, ids, floor), Side(logs, candidate, ids, floor);
    ValuesAreGiven(reference, ids, floor);
    ValuesAreGiven(candidate, ids, floor);
    NormalizedIsMeant(logs, reference, ids, Values(reference, ids, floor), floor);
    NormalizedIsMeant(logs, candidate, ids, Values(candidate, ids, floor), floor);
    DivergenceIsExpected(logs, p, q);
    assert AreTokens(reference, candidate, ids);
  }

  method ApproximateTopKKl(logs: Logs, reference: Position, candidate: Position, floor: real)
    returns (r: Result<real, Problem>)
    requires logs.Laws()
    ensures r == Err(EmptySide) <==> reference == [] || candidate == []
    ensures r.Ok? <==>
      reference != [] && candidate != [] && floor <= 0.0 && NonPositive(reference) && NonPositive(candidate)
    ensures r.Ok? ==> r.value == Estimate(logs, reference, candidate, floor) >= 0.0
    ensures r.Ok? ==> IsKl(logs, reference, candidate, floor, r.value)
  {
    if reference == [] || candidate == [] { return Err(EmptySide); }
    if floor > 0.0 { return Err(BadLogProbability); }
    if exists i :: 0 <= i < |reference| && reference[i].1 > 0.0 { return Err(BadLogProbability); }
    if exists i :: 0 <= i < |candidate| && candidate[i].1 > 0.0 { return Err(BadLogProbability); }
    var ids := UnionIds(reference, candidate);
    var p := Normalized(logs, Values(reference, ids, floor), floor);
    var q := Normalized(logs, Values(candidate, ids, floor), floor);
    var value := Divergence(logs, p, q);
    EstimateIsDivergence(logs, reference, candidate, floor);
    EstimateIsKl(logs, reference, candidate, floor);
    assert Max(value, 0.0) == value;  // the clamp never fires
    return Ok(Max(value, 0.0));
  }

  // ----- what a run over many positions adds up to -----

  datatype Tally = Tally(
    kl: real, total: nat, scored: nat, skipped: nat, squares: real, deltas: nat, hits: nat)

  const EMPTY_TALLY := Tally(0.0, 0, 0, 0, 0.0, 0, 0)

  function Square(x: real): real { x * x }

  function Relative(logs: Logs, item: (int, real), candidate: Position, floor: real): real
    requires logs.exp(item.1) != 0.0
  {
    (logs.exp(Lookup(candidate, item.0, floor)) - logs.exp(item.1)) / logs.exp(item.1)
  }

  /** The squared relative deltas of the tokens that carry probability, and how many there are. */
  function Deltas(logs: Logs, reference: Position, candidate: Position, floor: real): (real, nat) {
    if reference == [] then (0.0, 0)
    else
      var (squares, n) := Deltas(logs, reference[..|reference| - 1], candidate, floor);
      var item := reference[|reference| - 1];
      if logs.exp(item.1) > 0.000000001 then
        var delta := Relative(logs, item, candidate, floor);
        (squares + Square(delta), n + 1)
      else (squares, n)
  }

  /** The first index with the greatest log-probability. */
  function Top(p: Position): (i: nat)
    requires p != []
    ensures i < |p|
    ensures forall j :: 0 <= j < |p| ==> p[j].1 <= p[i].1
    ensures forall j :: 0 <= j < i ==> p[j].1 < p[i].1
  {
    if |p| == 1 then 0
    else
      var i := Top(p[..|p| - 1]);
      if p[|p| - 1].1 > p[i].1 then |p| - 1 else i
  }

  function Add(logs: Logs, t: Tally, pair: (Position, Position), floor: real): Tally {
    var (reference, candidate) := pair;
    if reference == [] || candidate == [] then t.(total := t.total + 1, skipped := t.skipped + 1)
    else
      var (squares, n) := Deltas(logs, reference, candidate, floor);
      Tally(t.kl + Estimate(logs, reference, candidate, floor), t.total + 1, t.scored + 1, t.skipped,
            t.squares + squares, t.deltas + n,
            t.hits + if reference[Top(reference)].0 == candidate[Top(candidate)].0 then 1 else 0)
  }

  function TallyOf(logs: Logs, pairs: Pairs, floor: real): Tally {
    if pairs == [] then EMPTY_TALLY
    else Add(logs, TallyOf(logs, pairs[..|pairs| - 1], floor), pairs[|pairs| - 1], floor)
  }

  /** A position that aggregation can digest. */
  ghost predicate Usable(pair: (Position, Position), floor: real) {
    Skipped(pair) || (Scored(pair) && floor <= 0.0 && NonPositive(pair.0) && NonPositive(pair.1))
  }

  ghost predicate AllUsable(pairs: Pairs, floor: real) {
    forall i :: 0 <= i < |pairs| ==> Usable(pairs[i], floor)
  }

  lemma {:induction false} AddCounts(logs: Logs, t: Tally, pair: (Position, Position), floor: real)
    requires logs.Laws()
    ensures var more := Add(logs, t, pair, floor);
      && more.total == t.total + 1
      && more.scored == t.scored + (if Scored(pair) then 1 else 0)
      && more.skipped == t.skipped + (if Scored(pair) then 0 else 1)
      && t.hits <= more.hits <= t.hits + (if Scored(pair) then 1 else 0)
      && more.kl >= t.kl
  {
    EstimateIsDivergence(logs, pair.0, pair.1, floor);
  }

  ghost predicate AnyScored(pairs: Pairs) {
    exists i :: 0 <= i < |pairs| && Scored(pairs[i])
  }

  lemma {:induction false} AnyScoredStep(init: Pairs, last: (Position, Position), pairs: Pairs)
    requires pairs == init + [last]
    ensures AnyScored(pairs) == (AnyScored(init) || Scored(last))
  {
    if i :| 0 <= i < |init| && Scored(init[i]) { assert Scored(pairs[i]); }
    assert pairs[|init|] == last;
  }

  /** Conservation: every position is scored or skipped, and the score is a mean of divergences. */
  lemma {:induction false} TallyBalances(logs: Logs, pairs: Pairs, floor: real)
    requires logs.Laws()
    ensures var t := TallyOf(logs, pairs, floor);
      && t.total == |pairs| == t.scored + t.skipped
      && t.hits <= t.scored && t.kl >= 0.0
      && (t.scored > 0 <==> AnyScored(pairs))
  {
    if pairs != [] {
      var init, last := pairs[..|pairs| - 1], pairs[|pairs| - 1];
      TallyBalances(logs, init, floor);
      AddCounts(logs, TallyOf(logs, init, floor), last, floor);
      assert pairs == init + [last];
      AnyScoredStep(init, last, pairs);
    }
  }

  // ----- responses by chunk -----

  function Zip(a: seq<Position>, b: seq<Position>): (r: Pairs)
    requires |a| == |b|
    ensures |r| == |a|
  {
    seq(|a|, i requires 0 <= i < |a| => (a[i], b[i]))
  }

  predicate Aligned(a: seq<seq<Position>>, b: seq<seq<Position>>) {
    |a| == |b| && forall c :: 0 <= c < |a| ==> |a[c]| == |b[c]|
  }

  /** All positions of the first chunks, in order. */
  function Flat(a: seq<seq<Position>>, b: seq<seq<Position>>): Pairs
    requires Aligned(a, b)
  {
    if a == [] then [] else Flat(a[..|a| - 1], b[..|b| - 1]) + Zip(a[|a| - 1], b[|b| - 1])
  }

  function Mean(total: real, n: nat): real
    requires n > 0
  {
    total / n as real
  }

  function Percentage(part: nat, whole: nat): real
    requires whole > 0
  {
    100.0 * part as real / whole as real
  }

  function RmsOf(t: Tally, sqrt: real -> real): Option<real> {
    if t.deltas > 0 then Some(100.0 * sqrt(Mean(t.squares, t.deltas))) else None
  }

  function MetricsOf(t: Tally, sqrt: real -> real): Metrics
    requires t.scored > 0
  {
    Metrics(Mean(t.kl, t.scored), RmsOf(t, sqrt), Percentage(t.hits, t.scored), t.total, t.scored, t.skipped)
  }

  method SumDeltas(logs: Logs, reference: Position, candidate: Position, floor: real) returns (squares: real, n: nat)
    ensures (squares, n) == Deltas(logs, reference, candidate, floor)
  {
    squares, n := 0.0, 0;
    for i := 0 to |reference|
      invariant (squares, n) == Deltas(logs, reference[..i], candidate, floor)
    {
      assert reference[..i + 1][..i] == reference[..i] && reference[..i + 1][i] == reference[i];
      if logs.exp(reference[i].1) > 0.000000001 {
        var delta := Relative(logs, reference[i], candidate, floor);
        squares, n := squares + Square(delta), n + 1;
      }
    }
    assert reference[..|reference|] == reference;
  }

  /** One position, added to the running totals. */
  method AddPosition(logs: Logs, t: Tally, reference: Position, candidate: Position, floor: real)
    returns (r: Result<Tally, bool>)
    requires logs.Laws()
    ensures r.Ok? <==> Usable((reference, candidate), floor)
    ensures r.Ok? ==> r.value == Add(logs, t, (reference, candidate), floor)
    ensures r.Err? ==> (r.error <==> !Scored((reference, candidate)))
  {
    if reference == [] && candidate == [] { return Ok(t.(total := t.total + 1, skipped := t.skipped + 1)); }
    if reference == [] || candidate == [] { return Err(true); }
    var kl := ApproximateTopKKl(logs, reference, candidate, floor);
    if kl.Err? { return Err(false); }
    var more := AddScored(logs, t, reference, candidate, floor, kl.value);
    return Ok(more);
  }

  method AddScored(logs: Logs, t: Tally, reference: Position, candidate: Position, floor: real, kl: real)
    returns (more: Tally)
    requires reference != [] && candidate != [] && kl == Estimate(logs, reference, candidate, floor)
    ensures more == Add(logs, t, (reference, candidate), floor)
  {
    var squares, n := SumDeltas(logs, reference, candidate, floor);
    var same := reference[Top(reference)].0 == candidate[Top(candidate)].0;
    return Tally(t.kl + kl, t.total + 1, t.scored + 1, t.skipped, t.squares + squares, t.deltas + n,
                 t.hits + if same then 1 else 0);
  }

  lemma {:induction false} TallyStep(logs: Logs, pairs: Pairs, pair: (Position, Position), floor: real)
    ensures TallyOf(logs, pairs + [pair], floor) == Add(logs, TallyOf(logs, pairs, floor), pair, floor)
  {
    assert (pairs + [pair])[..|pairs|] == pairs;
  }

  /** The positions of one chunk. */
  method AddChunk(logs: Logs, ghost before: Pairs, t: Tally, c: nat, a: seq<Position>, b: seq<Position>, floor: real)
    returns (r: Result<Tally, Failure>)
    requires logs.Laws() && |a| == |b| && t == TallyOf(logs, before, floor)
    ensures r.Ok? <==> AllUsable(Zip(a, b), floor)
    ensures r.Ok? ==> r.value == TallyOf(logs, before + Zip(a, b), floor)
    ensures r.Err? ==> FailsAt(r.error, c, a, b, floor)
  {
    var total := t;
    ghost var pairs := Zip(a, b);
    assert before + pairs[..0] == before;
    for p := 0 to |a|
      invariant total == TallyOf(logs, before + pairs[..p], floor)
      invariant AllUsable(pairs[..p], floor)
    {
      var step := AddPosition(logs, total, a[p], b[p], floor);
      if step.Err? {
        StepFails(a, b, c, p, floor, step.error);
        return Err(if step.error then OneSided(c, p) else Invalid(c, p));
      }
      Extend(logs, before, pairs, p, floor);
      total := step.value;
    }
    assert pairs[..|a|] == pairs;
    return Ok(total);
  }

  lemma {:induction false} Extend(logs: Logs, before: Pairs, pairs: Pairs, p: nat, floor: real)
    requires p < |pairs|
    ensures TallyOf(logs, before + pairs[..p + 1], floor)
         == Add(logs, TallyOf(logs, before + pairs[..p], floor), pairs[p], floor)
    ensures AllUsable(pairs[..p + 1], floor) <==> AllUsable(pairs[..p], floor) && Usable(pairs[p], floor)
  {
    TallyStep(logs, before + pairs[..p], pairs[p], floor);
    assert before + pairs[..p + 1] == (before + pairs[..p]) + [pairs[p]];
    BothUsable(pairs[..p], [pairs[p]], floor);
    assert pairs[..p + 1] == pairs[..p] + [pairs[p]];
  }

  /** A position that cannot be used, after ones that can, is the one to report. */
  lemma {:induction false} StepFails(a: seq<Position>, b: seq<Position>, c: nat, p: nat, floor: real, oneSided: bool)
    requires p < |a| == |b| && AllUsable(Zip(a, b)[..p], floor) && !Usable((a[p], b[p]), floor)
    requires oneSided <==> !Scored((a[p], b[p]))
    ensures FailsAt(if oneSided then OneSided(c, p) else Invalid(c, p), c, a, b, floor)
    ensures !AllUsable(Zip(a, b), floor)
  {
    assert Zip(a, b)[p] == (a[p], b[p]);
  }

  /** The failure names the first position of the chunk that cannot be used, and why. */
  ghost predicate FailsAt(f: Failure, c: nat, a: seq<Position>, b: seq<Position>, floor: real)
    requires |a| == |b|
  {
    match f
    case OneSided(chunk, p) => chunk == c && p < |a| && !Skipped((a[p], b[p])) && !Scored((a[p], b[p]))
      && AllUsable(Zip(a, b)[..p], floor)
    case Invalid(chunk, p) => chunk == c && p < |a| && Scored((a[p], b[p])) && !Usable((a[p], b[p]), floor)
      && AllUsable(Zip(a, b)[..p], floor)
    case _ => false
  }

  lemma {:induction false} FlatUsable(a: seq<seq<Position>>, b: seq<seq<Position>>, floor: real)
    requires Aligned(a, b)
    ensures AllUsable(Flat(a, b), floor) <==> forall c :: 0 <= c < |a| ==> AllUsable(Zip(a[c], b[c]), floor)
  {
    if a != [] {
      var n := |a| - 1;
      FlatUsable(a[..n], b[..n], floor);
      BothUsable(Flat(a[..n], b[..n]), Zip(a[n], b[n]), floor);
      assert forall c :: 0 <= c < n ==> a[..n][c] == a[c] && b[..n][c] == b[c];
    }
  }

  lemma {:induction false} BothUsable(init: Pairs, last: Pairs, floor: real)
    ensures AllUsable(init + last, floor) <==> AllUsable(init, floor) && AllUsable(last, floor)
  {
    var all := init + last;
    assert forall i :: 0 <= i < |init| ==> all[i] == init[i];
    assert forall i :: 0 <= i < |last| ==> all[|init| + i] == last[i];
  }

  /** Why an aggregation fails. */
  ghost predicate FailureFits(f: Failure, a: seq<seq<Position>>, b: seq<seq<Position>>, floor: real) {
    match f
    case ChunkCounts => |a| != |b|
    case PositionCounts(c) => c < |a| == |b| && |a[c]| != |b[c]|
    case NothingScored => Aligned(a, b) && forall i :: 0 <= i < |Flat(a, b)| ==> Skipped(Flat(a, b)[i])
    case OneSided(c, _) => c < |a| == |b| && |a[c]| == |b[c]| && FailsAt(f, c, a[c], b[c], floor)
    case Invalid(c, _) => c < |a| == |b| && |a[c]| == |b[c]| && FailsAt(f, c, a[c], b[c], floor)
  }

  /** The nested loops: every position of every chunk, in order. */
  method TallyChunks(logs: Logs, a: seq<seq<Position>>, b: seq<seq<Position>>, floor: real)
    returns (r: Result<Tally, Failure>)
    requires logs.Laws() && |a| == |b|
    ensures r.Ok? <==> Aligned(a, b) && AllUsable(Flat(a, b), floor)
    ensures r.Ok? ==> r.value == TallyOf(logs, Flat(a, b), floor)
    ensures r.Err? ==> FailureFits(r.error, a, b, floor)
  {
    var t := EMPTY_TALLY;
    for c := 0 to |a|
      invariant Aligned(a[..c], b[..c]) && AllUsable(Flat(a[..c], b[..c]), floor)
      invariant t == TallyOf(logs, Flat(a[..c], b[..c]), floor)
    {
      if |a[c]| != |b[c]| { return Err(PositionCounts(c)); }
      var step := AddChunk(logs, Flat(a[..c], b[..c]), t, c, a[c], b[c], floor);
      if step.Err? {
        ChunkMatters(a, b, c, floor);
        return Err(step.error);
      }
      FlatStep(a, b, c);
      UsableJoin(Flat(a[..c], b[..c]), Zip(a[c], b[c]), floor);
      t := step.value;
    }
    assert a[..|a|] == a && b[..|b|] == b;
    return Ok(t);
  }

  lemma {:induction false} UsableJoin(x: Pairs, y: Pairs, floor: real)
    requires AllUsable(x, floor) && AllUsable(y, floor)
    ensures AllUsable(x + y, floor)
  {}

  /** One unusable chunk spoils the whole response. */
  lemma {:induction false} ChunkMatters(a: seq<seq<Position>>, b: seq<seq<Position>>, c: nat, floor: real)
    requires c < |a| == |b| && |a[c]| == |b[c]| && !AllUsable(Zip(a[c], b[c]), floor)
    ensures !(Aligned(a, b) && AllUsable(Flat(a, b), floor))
  {
    if Aligned(a, b) { FlatUsable(a, b, floor); }
  }

  method AggregateTopKKld(
      logs: Logs, sqrt: real -> real, a: seq<seq<Position>>, b: seq<seq<Position>>, floor: real)
    returns (r: Result<Metrics, Failure>)
    requires logs.Laws()
    ensures r.Ok? <==> Aligned(a, b) && AllUsable(Flat(a, b), floor) && AnyScored(Flat(a, b))
    ensures r.Ok? ==> MetricsAre(logs, sqrt, Flat(a, b), floor, r.value)
    ensures r.Ok? ==> r.value.meanKld >= 0.0 && 0.0 <= r.value.sameTop <= 100.0
    ensures r.Err? ==> FailureFits(r.error, a, b, floor)
  {
    if |a| != |b| { return Err(ChunkCounts); }
    var t := TallyChunks(logs, a, b, floor);
    if t.Err? { return Err(t.error); }
    if t.value.scored == 0 {
      NothingIsScored(logs, Flat(a, b), floor);
      return Err(NothingScored);
    }
    TallyBalances(logs, Flat(a, b), floor);
    MetricsAreInRange(logs, sqrt, Flat(a, b), floor);
    MetricsAreMeant(logs, sqrt, Flat(a, b), floor, t.value, MetricsOf(t.value, sqrt));
    return Ok(MetricsOf(t.value, sqrt));
  }

  lemma {:induction false} NothingIsScored(logs: Logs, pairs: Pairs, floor: real)
    requires logs.Laws() && AllUsable(pairs, floor) && TallyOf(logs, pairs, floor).scored == 0
    ensures forall i :: 0 <= i < |pairs| ==> Skipped(pairs[i])
  {
    TallyBalances(logs, pairs, floor);
    forall i | 0 <= i < |pairs| ensures Skipped(pairs[i]) {
      assert Usable(pairs[i], floor) && !Scored(pairs[i]);
    }
  }

  lemma {:induction false} FlatStep(a: seq<seq<Position>>, b: seq<seq<Position>>, c: nat)
    requires |a| == |b| && c < |a| && |a[c]| == |b[c]| && Aligned(a[..c], b[..c])
    ensures Aligned(a[..c + 1], b[..c + 1])
    ensures Flat(a[..c + 1], b[..c + 1]) == Flat(a[..c], b[..c]) + Zip(a[c], b[c])
  {
    var x, y := a[..c + 1], b[..c + 1];
    assert x[..c] == a[..c] && y[..c] == b[..c];
    forall k | 0 <= k < |x| ensures |x[k]| == |y[k]| {
      if k < c { assert x[k] == a[..c][k] && y[k] == b[..c][k]; }
    }
  }

  // ----- what the totals mean -----

  /** The running totals, each said of the positions. */
  ghost predicate TallyMeans(logs: Logs, pairs: Pairs, floor: real, t: Tally) {
    && CountsMean(pairs, t)
    && AddsUp(Divergences(logs, floor), ScoredOf(pairs), t.kl)
    && AddsUp(Squares(logs, floor), AllCarrying(logs, ScoredOf(pairs)), t.squares)
    && t.deltas == |AllCarrying(logs, ScoredOf(pairs))|
  }

  ghost predicate CountsMean(pairs: Pairs, t: Tally) {
    && t.total == |pairs| && t.scored == |ScoredOf(pairs)| && t.skipped == |pairs| - |ScoredOf(pairs)|
    && t.hits == |HitsOf(ScoredOf(pairs))|
  }

  lemma {:induction false} TotalConcat(a: seq<real>, b: seq<real>)
    ensures Total(a + b) == Total(a) + Total(b)
  {
    if a == [] {
      assert a + b == b;
    } else {
      assert (a + b)[1..] == a[1..] + b;
      TotalConcat(a[1..], b);
    }
  }

  lemma {:induction false} OneMoreAddend<T>(
      relation: (T, real) -> bool, items: seq<T>, total: real, item: T, addend: real)
    requires AddsUp(relation, items, total) && relation(item, addend)
    ensures AddsUp(relation, items + [item], total + addend)
  {
    var addends :| AllRelated(relation, items, addends) && total == Total(addends);
    TotalAppend(addends, addend);
    assert AllRelated(relation, items + [item], addends + [addend]);
  }

  lemma {:induction false} BothAddUp<T>(
      relation: (T, real) -> bool, items: seq<T>, total: real, more: seq<T>, own: real)
    requires AddsUp(relation, items, total) && AddsUp(relation, more, own)
    ensures AddsUp(relation, items + more, total + own)
  {
    var addends :| AllRelated(relation, items, addends) && total == Total(addends);
    var others :| AllRelated(relation, more, others) && own == Total(others);
    TotalConcat(addends, others);
    assert AllRelated(relation, items + more, addends + others);
  }

  lemma {:induction false} NothingAddsUp<T>(relation: (T, real) -> bool)
    ensures AddsUp(relation, [], 0.0)
  {
    assert AllRelated(relation, [], []) && Total([]) == 0.0;
  }

  lemma {:induction false} RelativeIsSquare(logs: Logs, item: (int, real), candidate: Position, floor: real)
    requires logs.exp(item.1) > 0.0
    ensures IsSquare(logs, (item, candidate), floor, Square(Relative(logs, item, candidate, floor)))
  {
    LookupGives(candidate, item.0, floor);
    var w, x := logs.exp(item.1), logs.exp(Lookup(candidate, item.0, floor));
    SquareOfQuotient((x - w) / w, x - w, w);
  }

  lemma {:induction false} SquareOfQuotient(q: real, d: real, w: real)
    requires w != 0.0 && q == d / w
    ensures q * q * (w * w) == d * d
  {
    assert q * w == d;
    assert q * q * (w * w) == (q * w) * (q * w);
  }

  lemma {:induction false} DeltasAddUp(logs: Logs, reference: Position, candidate: Position, floor: real)
    ensures AddsUp(Squares(logs, floor), CarryingOf(logs, reference, candidate),
                   Deltas(logs, reference, candidate, floor).0)
    ensures Deltas(logs, reference, candidate, floor).1 == |CarryingOf(logs, reference, candidate)|
  {
    if reference == [] {
      NothingAddsUp(Squares(logs, floor));
    } else {
      var init, last := reference[..|reference| - 1], reference[|reference| - 1];
      DeltasAddUp(logs, init, candidate, floor);
      if logs.exp(last.1) > 0.000000001 {
        var square := Square(Relative(logs, last, candidate, floor));
        RelativeIsSquare(logs, last, candidate, floor);
        OneMoreAddend(Squares(logs, floor), CarryingOf(logs, init, candidate),
                      Deltas(logs, init, candidate, floor).0, (last, candidate), square);
      }
    }
  }

  lemma {:induction false} TopIsTop(p: Position, i: int)
    requires p != []
    ensures (IsTop(p, i)) == (i == Top(p))
  {}

  lemma {:induction false} HitIsSameTop(pair: (Position, Position))
    requires Scored(pair)
    ensures (SameTop(pair)) == (pair.0[Top(pair.0)].0 == pair.1[Top(pair.1)].0)
  {
    TopIsTop(pair.0, Top(pair.0));
    TopIsTop(pair.1, Top(pair.1));
    if SameTop(pair) {
      var i, j :| IsTop(pair.0, i) && IsTop(pair.1, j) && pair.0[i].0 == pair.1[j].0;
      TopIsTop(pair.0, i);
      TopIsTop(pair.1, j);
    }
  }

  lemma {:induction false} MoreScored(logs: Logs, pairs: Pairs, pair: (Position, Position), all: Pairs)
    requires all == pairs + [pair]
    ensures ScoredOf(all) == ScoredOf(pairs) + if Scored(pair) then [pair] else []
  {
    assert all[..|pairs|] == pairs && all[|pairs|] == pair;
  }

  lemma {:induction false} MoreCarrying(logs: Logs, scored: Pairs, pair: (Position, Position), more: Pairs)
    requires more == scored + [pair]
    ensures AllCarrying(logs, more) == AllCarrying(logs, scored) + CarryingOf(logs, pair.0, pair.1)
    ensures HitsOf(more) == HitsOf(scored) + if SameTop(pair) then [pair] else []
  {
    assert more[..|scored|] == scored && more[|scored|] == pair;
  }

  lemma {:induction false} AddCountsMean(pairs: Pairs, pair: (Position, Position), all: Pairs, t: Tally, more: Tally)
    requires |all| == |pairs| + 1 && CountsMean(pairs, t)
    requires ScoredOf(all) == ScoredOf(pairs) + [pair]
    requires HitsOf(ScoredOf(all)) == HitsOf(ScoredOf(pairs)) + if SameTop(pair) then [pair] else []
    requires more.total == t.total + 1 && more.scored == t.scored + 1 && more.skipped == t.skipped
    requires more.hits == t.hits + if SameTop(pair) then 1 else 0
    ensures CountsMean(all, more)
  {}

  lemma {:induction false} AddMeans(
      logs: Logs, pairs: Pairs, pair: (Position, Position), all: Pairs, floor: real, t: Tally, kl: real,
      squares: real, n: nat, more: Tally)
    requires all == pairs + [pair] && Scored(pair) && TallyMeans(logs, pairs, floor, t)
    requires Divergences(logs, floor)(pair, kl)
    requires AddsUp(Squares(logs, floor), CarryingOf(logs, pair.0, pair.1), squares)
    requires n == |CarryingOf(logs, pair.0, pair.1)|
    requires more == Tally(
      t.kl + kl, t.total + 1, t.scored + 1, t.skipped, t.squares + squares, t.deltas + n,
      t.hits + if SameTop(pair) then 1 else 0)
    ensures TallyMeans(logs, all, floor, more)
  {
    var scored := ScoredOf(pairs);
    MoreScored(logs, pairs, pair, all);
    MoreCarrying(logs, scored, pair, ScoredOf(all));
    AddCountsMean(pairs, pair, all, t, more);
    OneMoreAddend(Divergences(logs, floor), scored, t.kl, pair, kl);
    BothAddUp(Squares(logs, floor), AllCarrying(logs, scored), t.squares, CarryingOf(logs, pair.0, pair.1), squares);
  }

  lemma {:induction false} SkipMeans(
      logs: Logs, pairs: Pairs, pair: (Position, Position), all: Pairs, floor: real, t: Tally)
    requires all == pairs + [pair] && !Scored(pair) && TallyMeans(logs, pairs, floor, t)
    ensures TallyMeans(logs, all, floor, Add(logs, t, pair, floor))
  {
    MoreScored(logs, pairs, pair, all);
    assert ScoredOf(all) == ScoredOf(pairs);
  }

  lemma {:induction false} EstimateDiverges(logs: Logs, pair: (Position, Position), floor: real)
    requires logs.Laws()
    ensures Divergences(logs, floor)(pair, Estimate(logs, pair.0, pair.1, floor))
  {
    EstimateIsKl(logs, pair.0, pair.1, floor);
  }

  /** What a scored position adds. */
  lemma {:induction false} AddendsOf(logs: Logs, pair: (Position, Position), floor: real, t: Tally)
      returns (kl: real, squares: real, n: nat, more: Tally)
    requires logs.Laws() && Scored(pair)
    ensures Divergences(logs, floor)(pair, kl)
    ensures AddsUp(Squares(logs, floor), CarryingOf(logs, pair.0, pair.1), squares)
    ensures n == |CarryingOf(logs, pair.0, pair.1)|
    ensures more == Add(logs, t, pair, floor)
    ensures more == Tally(
      t.kl + kl, t.total + 1, t.scored + 1, t.skipped, t.squares + squares, t.deltas + n,
      t.hits + if SameTop(pair) then 1 else 0)
  {
    kl := Estimate(logs, pair.0, pair.1, floor);
    squares, n := Deltas(logs, pair.0, pair.1, floor).0, Deltas(logs, pair.0, pair.1, floor).1;
    more := Add(logs, t, pair, floor);
    EstimateDiverges(logs, pair, floor);
    DeltasAddUp(logs, pair.0, pair.1, floor);
    HitIsSameTop(pair);
  }

  lemma {:induction false} NextIsMeant(
      logs: Logs, init: Pairs, last: (Position, Position), pairs: Pairs, floor: real, t: Tally, more: Tally)
    requires logs.Laws() && pairs == init + [last] && TallyMeans(logs, init, floor, t)
    requires more == Add(logs, t, last, floor)
    ensures TallyMeans(logs, pairs, floor, more)
  {
    if Scored(last) {
      var kl, squares, n, sum := AddendsOf(logs, last, floor, t);
      AddMeans(logs, init, last, pairs, floor, t, kl, squares, n, sum);
    } else {
      SkipMeans(logs, init, last, pairs, floor, t);
    }
  }

  lemma {:induction false} NothingIsMeant(logs: Logs, floor: real)
    ensures TallyMeans(logs, [], floor, EMPTY_TALLY)
  {
    NothingAddsUp(Divergences(logs, floor));
    NothingAddsUp(Squares(logs, floor));
  }

  lemma {:induction false} LastPair(pairs: Pairs, init: Pairs, last: (Position, Position))
    requires pairs != [] && init == pairs[..|pairs| - 1] && last == pairs[|pairs| - 1]
    ensures pairs == init + [last]
  {}

  lemma {:induction false} TallyIsMeant(logs: Logs, pairs: Pairs, floor: real)
    requires logs.Laws()
    ensures TallyMeans(logs, pairs, floor, TallyOf(logs, pairs, floor))
  {
    if pairs == [] {
      NothingIsMeant(logs, floor);
    } else {
      var init, last := pairs[..|pairs| - 1], pairs[|pairs| - 1];
      TallyIsMeant(logs, init, floor);
      LastPair(pairs, init, last);
      NextIsMeant(logs, init, last, pairs, floor, TallyOf(logs, init, floor), TallyOf(logs, pairs, floor));
    }
  }

  lemma {:induction false} TimesIsProduct(x: real, n: nat)
    ensures Times(x, n) == x * n as real
  {
    if n > 0 { TimesIsProduct(x, n - 1); }
  }

  lemma {:induction false} Quotient(total: real, n: nat)
    requires n > 0
    ensures Times(Mean(total, n), n) == total
  {
    TimesIsProduct(Mean(total, n), n);
  }

  lemma {:induction false} Percent(part: nat, whole: nat)
    requires whole > 0
    ensures Times(Percentage(part, whole), whole) == Times(100.0, part)
  {
    TimesIsProduct(Percentage(part, whole), whole);
    TimesIsProduct(100.0, part);
  }

  lemma {:induction false} MeanIsMeant<T>(
      relation: (T, real) -> bool, items: seq<T>, total: real, mean: real, n: nat)
    requires AddsUp(relation, items, total) && n > 0 && mean == Mean(total, n)
    ensures AddsUp(relation, items, Times(mean, n))
  {
    Quotient(total, n);
  }

  lemma {:induction false} RmsIsMeant(
      logs: Logs, sqrt: real -> real, tokens: seq<Token>, floor: real, t: Tally, rms: Option<real>)
    requires AddsUp(Squares(logs, floor), tokens, t.squares) && t.deltas == |tokens| && RmsOf(t, sqrt) == rms
    ensures RmsIs(logs, sqrt, tokens, floor, rms)
  {
    if t.deltas > 0 {
      var mean := Mean(t.squares, t.deltas);
      MeanIsMeant(Squares(logs, floor), tokens, t.squares, mean, t.deltas);
      assert rms == Some(100.0 * sqrt(mean));
    }
  }

  lemma {:induction false} TallyGivesMetrics(
      logs: Logs, sqrt: real -> real, pairs: Pairs, floor: real, t: Tally, m: Metrics, scored: Pairs)
    requires scored == ScoredOf(pairs) && TallyMeans(logs, pairs, floor, t) && t.scored > 0
    requires m.total == t.total && m.scored == t.scored && m.skipped == t.skipped
    requires AddsUp(Divergences(logs, floor), scored, Times(m.meanKld, t.scored))
    requires RmsIs(logs, sqrt, AllCarrying(logs, scored), floor, m.rmsDelta)
    requires Times(m.sameTop, t.scored) == Times(100.0, t.hits)
    ensures MetricsAre(logs, sqrt, pairs, floor, m)
  {}

  lemma {:induction false} MeanOfTally(logs: Logs, pairs: Pairs, floor: real, t: Tally)
    requires TallyMeans(logs, pairs, floor, t) && t.scored > 0
    ensures AddsUp(Divergences(logs, floor), ScoredOf(pairs), Times(Mean(t.kl, t.scored), t.scored))
  {
    MeanIsMeant(Divergences(logs, floor), ScoredOf(pairs), t.kl, Mean(t.kl, t.scored), t.scored);
  }

  lemma {:induction false} RmsOfTally(
      logs: Logs, sqrt: real -> real, pairs: Pairs, floor: real, t: Tally, rms: Option<real>)
    requires TallyMeans(logs, pairs, floor, t) && RmsOf(t, sqrt) == rms
    ensures RmsIs(logs, sqrt, AllCarrying(logs, ScoredOf(pairs)), floor, rms)
  {
    RmsIsMeant(logs, sqrt, AllCarrying(logs, ScoredOf(pairs)), floor, t, rms);
  }

  lemma {:induction false} TopOfTally(t: Tally, sqrt: real -> real, m: Metrics)
    requires t.scored > 0 && m == MetricsOf(t, sqrt)
    ensures Times(m.sameTop, t.scored) == Times(100.0, t.hits)
    ensures m.meanKld == Mean(t.kl, t.scored) && m.rmsDelta == RmsOf(t, sqrt)
    ensures m == Metrics(m.meanKld, m.rmsDelta, m.sameTop, t.total, t.scored, t.skipped)
  {
    Percent(t.hits, t.scored);
  }

  lemma {:induction false} MetricsOfMeant(
      logs: Logs, sqrt: real -> real, pairs: Pairs, floor: real, t: Tally, mean: real, rms: Option<real>, same: real)
    requires TallyMeans(logs, pairs, floor, t) && t.scored > 0
    requires mean == Mean(t.kl, t.scored)
    requires RmsIs(logs, sqrt, AllCarrying(logs, ScoredOf(pairs)), floor, rms)
    requires Times(same, t.scored) == Times(100.0, t.hits)
    ensures MetricsAre(logs, sqrt, pairs, floor, Metrics(mean, rms, same, t.total, t.scored, t.skipped))
  {
    MeanOfTally(logs, pairs, floor, t);
    TallyGivesMetrics(logs, sqrt, pairs, floor, t, Metrics(mean, rms, same, t.total, t.scored, t.skipped),
                      ScoredOf(pairs));
  }

  lemma {:induction false} TallyMeansMetrics(
      logs: Logs, sqrt: real -> real, pairs: Pairs, floor: real, t: Tally, m: Metrics)
    requires TallyMeans(logs, pairs, floor, t) && t.scored > 0 && m == MetricsOf(t, sqrt)
    ensures MetricsAre(logs, sqrt, pairs, floor, m)
  {
    TopOfTally(t, sqrt, m);
    RmsOfTally(logs, sqrt, pairs, floor, t, m.rmsDelta);
    MetricsOfMeant(logs, sqrt, pairs, floor, t, m.meanKld, m.rmsDelta, m.sameTop);
  }

  /** The metrics are the mean divergence, the root mean square change and the hit rate of the scored positions. */
  lemma {:induction false} MetricsAreMeant(
      logs: Logs, sqrt: real -> real, pairs: Pairs, floor: real, t: Tally, m: Metrics)
    requires logs.Laws() && t == TallyOf(logs, pairs, floor) && t.scored > 0 && m == MetricsOf(t, sqrt)
    ensures MetricsAre(logs, sqrt, pairs, floor, m)
  {
    TallyIsMeant(logs, pairs, floor);
    TallyMeansMetrics(logs, sqrt, pairs, floor, t, m);
  }

  // ----- the main results -----

  /** Reported metrics are in range and account for every position. */
  lemma {:induction false} MetricsAreInRange(logs: Logs, sqrt: real -> real, pairs: Pairs, floor: real)
    requires logs.Laws() && TallyOf(logs, pairs, floor).scored > 0
    ensures var m := MetricsOf(TallyOf(logs, pairs, floor), sqrt);
      m.meanKld >= 0.0 && 0.0 <= m.sameTop <= 100.0 && m.total == |pairs| == m.scored + m.skipped
  {
    TallyBalances(logs, pairs, floor);
    var t := TallyOf(logs, pairs, floor);
    MeanIsNonNegative(t.kl, t.scored);
    PercentageInRange(t.hits, t.scored);
  }

  lemma {:induction false} MeanIsNonNegative(total: real, n: nat)
    requires n > 0 && total >= 0.0
    ensures Mean(total, n) >= 0.0
  {}

  lemma {:induction false} PercentageInRange(part: nat, whole: nat)
    requires part <= whole && whole > 0
    ensures 0.0 <= Percentage(part, whole) <= 100.0
  {
    var x, n := Percentage(part, whole), whole as real;
    assert x * n == 100.0 * part as real;
    assert (x - 100.0) * n == x * n - 100.0 * n;
  }

  /** A run compared with itself: no divergence, and the same top token everywhere. */
  lemma {:induction false} SelfComparison(logs: Logs, pairs: Pairs, floor: real)
    requires forall i :: 0 <= i < |pairs| ==> pairs[i].0 == pairs[i].1
    ensures var t := TallyOf(logs, pairs, floor); t.kl == 0.0 && t.hits == t.scored
  {
    if pairs != [] {
      var last := pairs[|pairs| - 1];
      SelfComparison(logs, pairs[..|pairs| - 1], floor);
      SameHasNoDivergence(logs, Side(logs, last.0, UnionIds(last.0, last.0), floor));
    }
  }

  /** Where chunk boundaries fall does not matter. */
  lemma {:induction false} RechunkingIsNeutral(
      logs: Logs, a: seq<seq<Position>>, b: seq<seq<Position>>, c: seq<seq<Position>>, d: seq<seq<Position>>,
      floor: real)
    requires Aligned(a, b) && Aligned(c, d)
    requires Concat(a) == Concat(c) && Concat(b) == Concat(d)
    ensures TallyOf(logs, Flat(a, b), floor) == TallyOf(logs, Flat(c, d), floor)
  {
    FlatIsZip(a, b);
    FlatIsZip(c, d);
  }

  function Concat(chunks: seq<seq<Position>>): seq<Position> {
    if chunks == [] then [] else Concat(chunks[..|chunks| - 1]) + chunks[|chunks| - 1]
  }

  lemma {:induction false} FlatIsZip(a: seq<seq<Position>>, b: seq<seq<Position>>)
    requires Aligned(a, b)
    ensures |Concat(a)| == |Concat(b)| && Flat(a, b) == Zip(Concat(a), Concat(b))
  {
    if a != [] { FlatIsZip(a[..|a| - 1], b[..|b| - 1]); }
  }
}
