/** What the top-k estimate and its aggregation mean, without the way they are computed. */
module TopKSpec {
  import opened Wrappers

  /** An exponential and a logarithm, with no more laws than the argument needs. */
  datatype Logs = Logs(exp: real -> real, ln: real -> real) {
    predicate PointLaw(x: real) {
      && exp(x) > 0.0
      && x + 1.0 <= exp(x) && (x + 1.0 == exp(x) ==> x == 0.0)
      && (x > 0.0 ==> exp(ln(x)) == x)
    }

    predicate SumLaw(x: real, y: real) { exp(x + y) == exp(x) * exp(y) }

    ghost predicate Laws() {
      (forall x :: PointLaw(x)) && (forall x, y :: SumLaw(x, y))
    }
  }

  /** A response at one position: token identifiers with their log-probabilities, in dictionary order. */
  type Position = seq<(int, real)>

  type Pairs = seq<(Position, Position)>

  ghost predicate Has(p: Position, id: int) { exists i :: 0 <= i < |p| && p[i].0 == id }

  ghost predicate NonPositive(p: Position) { forall i :: 0 <= i < |p| ==> p[i].1 <= 0.0 }

  ghost function Total(s: seq<real>): real { if s == [] then 0.0 else s[0] + Total(s[1..]) }

  /** The probability of the given logarithms together. */
  ghost function Mass(logs: Logs, values: seq<real>): real {
    if values == [] then 0.0 else logs.exp(values[0]) + Mass(logs, values[1..])
  }

  // ----- one position -----

  /** `x` is what the response gives for a token: its entry, or the floor. */
  ghost predicate Gives(p: Position, id: int, floor: real, x: real) {
    if Has(p, id) then exists i :: 0 <= i < |p| && p[i] == (id, x) && forall j :: 0 <= j < i ==> p[j].0 != id
    else x == floor
  }

  /** The logarithm of the mass that the listed tokens leave, but at least the floor. */
  ghost predicate IsBucket(logs: Logs, listed: seq<real>, floor: real, bucket: real) {
    if Mass(logs, listed) < 1.0 then
      var rest := logs.ln(1.0 - Mass(logs, listed));
      bucket in {rest, floor} && bucket >= rest && bucket >= floor
    else bucket == floor
  }

  /** `values` are what one side gives for the tokens, and a bucket for all others. */
  ghost predicate AreValues(logs: Logs, p: Position, ids: seq<int>, floor: real, values: seq<real>) {
    && |values| == |ids| + 1
    && (forall i :: 0 <= i < |ids| ==> Gives(p, ids[i], floor, values[i]))
    && IsBucket(logs, values[..|ids|], floor, values[|ids|])
  }

  /** `dist` are those values, shifted by the logarithm of their mass, so that the mass is one. */
  ghost predicate IsDistribution(logs: Logs, p: Position, ids: seq<int>, floor: real, dist: seq<real>) {
    && |dist| == |ids| + 1 && Mass(logs, dist) == 1.0
    && exists values :: AreValues(logs, p, ids, floor, values) && IsShifted(values, logs.ln(Mass(logs, values)), dist)
  }

  ghost predicate IsShifted(values: seq<real>, shift: real, dist: seq<real>) {
    |dist| == |values| && forall i :: 0 <= i < |values| ==> dist[i] == values[i] - shift
  }

  /** The tokens of either side, once each, ascending. */
  ghost predicate AreTokens(p: Position, q: Position, ids: seq<int>) {
    && (forall i, j :: 0 <= i < j < |ids| ==> ids[i] < ids[j])
    && (forall id :: id in ids <==> Has(p, id) || Has(q, id))
  }

  /** The expectation, under the first distribution, of the difference of the logarithms. */
  ghost function Expected(logs: Logs, p: seq<real>, q: seq<real>): real
    requires |p| == |q|
  {
    if p == [] then 0.0 else logs.exp(p[0]) * (p[0] - q[0]) + Expected(logs, p[1..], q[1..])
  }

  /** `KL(reference || candidate)` over the listed tokens and the bucket. */
  ghost predicate IsKl(logs: Logs, reference: Position, candidate: Position, floor: real, value: real) {
    exists ids, p, q ::
      && AreTokens(reference, candidate, ids)
      && IsDistribution(logs, reference, ids, floor, p) && IsDistribution(logs, candidate, ids, floor, q)
      && |p| == |q| && value == Expected(logs, p, q)
  }

  // ----- many positions -----

  /** Both sides answered at this position. */
  ghost predicate Scored(pair: (Position, Position)) { pair.0 != [] && pair.1 != [] }

  ghost predicate Skipped(pair: (Position, Position)) { pair.0 == [] && pair.1 == [] }

  ghost function ScoredOf(pairs: Pairs): Pairs {
    if pairs == [] then []
    else
      var last := pairs[|pairs| - 1];
      ScoredOf(pairs[..|pairs| - 1]) + if Scored(last) then [last] else []
  }

  /** `total` is a sum with one addend for each item, related to it. */
  ghost predicate AddsUp<T>(relation: (T, real) -> bool, items: seq<T>, total: real) {
    exists addends: seq<real> :: AllRelated(relation, items, addends) && total == Total(addends)
  }

  ghost predicate AllRelated<T>(relation: (T, real) -> bool, items: seq<T>, addends: seq<real>) {
    |addends| == |items| && forall i :: 0 <= i < |items| ==> relation(items[i], addends[i])
  }

  /** The divergence of a position. */
  ghost function Divergences(logs: Logs, floor: real): ((Position, Position), real) -> bool {
    (pair: (Position, Position), kl: real) => IsKl(logs, pair.0, pair.1, floor, kl)
  }

  /** The first of the most probable tokens. */
  ghost predicate IsTop(p: Position, i: int) {
    && 0 <= i < |p| && (forall j :: 0 <= j < |p| ==> p[j].1 <= p[i].1)
    && (forall j :: 0 <= j < i ==> p[j].1 < p[i].1)
  }

  ghost predicate SameTop(pair: (Position, Position)) {
    exists i, j :: IsTop(pair.0, i) && IsTop(pair.1, j) && pair.0[i].0 == pair.1[j].0
  }

  ghost function HitsOf(scored: Pairs): Pairs {
    if scored == [] then []
    else
      var last := scored[|scored| - 1];
      HitsOf(scored[..|scored| - 1]) + if SameTop(last) then [last] else []
  }

  /** A token of the reference, beside the candidate's response at the same position. */
  type Token = ((int, real), Position)

  /** The tokens that carry probability: more than 10^-9. */
  ghost function CarryingOf(logs: Logs, reference: Position, candidate: Position): seq<Token> {
    if reference == [] then []
    else
      var last := reference[|reference| - 1];
      CarryingOf(logs, reference[..|reference| - 1], candidate)
      + if logs.exp(last.1) > 0.000000001 then [(last, candidate)] else []
  }

  ghost function AllCarrying(logs: Logs, scored: Pairs): seq<Token> {
    if scored == [] then []
    else
      var last := scored[|scored| - 1];
      AllCarrying(logs, scored[..|scored| - 1]) + CarryingOf(logs, last.0, last.1)
  }

  /** `square` is the square of the token's change of probability, relative to the reference. */
  ghost predicate IsSquare(logs: Logs, token: Token, floor: real, square: real) {
    var weight := logs.exp(token.0.1);
    exists x ::
      Gives(token.1, token.0.0, floor, x)
      && square * (weight * weight) == (logs.exp(x) - weight) * (logs.exp(x) - weight)
  }

  ghost function Squares(logs: Logs, floor: real): (Token, real) -> bool {
    (token: Token, square: real) => IsSquare(logs, token, floor, square)
  }

  datatype Metrics = Metrics(
    meanKld: real, rmsDelta: Option<real>, sameTop: real, total: nat, scored: nat, skipped: nat)

  /** The root of the mean square, in percent, over the tokens that carry probability; absent without any. */
  ghost predicate RmsIs(logs: Logs, sqrt: real -> real, tokens: seq<Token>, floor: real, rms: Option<real>) {
    if tokens == [] then rms == None
    else
      exists mean ::
        AddsUp(Squares(logs, floor), tokens, Times(mean, |tokens|)) && rms == Some(100.0 * sqrt(mean))
  }

  /** `n` times `x`. */
  ghost function Times(x: real, n: nat): real { if n == 0 then 0.0 else Times(x, n - 1) + x }

  /** What the metrics of a run say about its positions. */
  ghost predicate MetricsAre(logs: Logs, sqrt: real -> real, pairs: Pairs, floor: real, m: Metrics) {
    var scored := ScoredOf(pairs);
    && m.total == |pairs| && m.scored == |scored| && m.skipped == |pairs| - |scored|
    && AddsUp(Divergences(logs, floor), scored, Times(m.meanKld, |scored|))
    && RmsIs(logs, sqrt, AllCarrying(logs, scored), floor, m.rmsDelta)
    && Times(m.sameTop, |scored|) == Times(100.0, |HitsOf(scored)|)
  }
}
