/** Top-k KL divergence with a bucket for omitted mass, in exact reals over an abstract exponential and logarithm. */
module TopK {
  import opened Wrappers
  import opened TopKSpec

  datatype Problem = EmptySide | BadLogProbability

  function Max(a: real, b: real): real { if a >= b then a else b }

  function Sum(s: seq<real>): real {
    if s == [] then 0.0 else Sum(s[..|s| - 1]) + s[|s| - 1]
  }

  function Exps(logs: Logs, s: seq<real>): (r: seq<real>)
    ensures |r| == |s|
  {
    seq(|s|, i requires 0 <= i < |s| => logs.exp(s[i]))
  }

  lemma {:induction false} TotalAppend(s: seq<real>, x: real)
    ensures Total(s + [x]) == Total(s) + x
  {
    if s != [] {
      assert (s + [x])[1..] == s[1..] + [x];
      TotalAppend(s[1..], x);
    } else {
      assert (s + [x])[1..] == [];
    }
  }

  lemma {:induction false} SumIsTotal(s: seq<real>)
    ensures Sum(s) == Total(s)
  {
    if s != [] {
      var n := |s| - 1;
      SumIsTotal(s[..n]);
      TotalAppend(s[..n], s[n]);
      assert s == s[..n] + [s[n]];
    }
  }

  lemma {:induction false} TotalOfExps(logs: Logs, values: seq<real>)
    ensures Total(Exps(logs, values)) == Mass(logs, values)
  {
    if values != [] {
      TotalOfExps(logs, values[1..]);
      assert Exps(logs, values)[1..] == Exps(logs, values[1..]);
    }
  }

  lemma {:induction false} SumIsMass(logs: Logs, values: seq<real>)
    ensures Sum(Exps(logs, values)) == Mass(logs, values)
  {
    SumIsTotal(Exps(logs, values));
    TotalOfExps(logs, values);
  }

  lemma {:induction false} SumOfExpsPositive(logs: Logs, s: seq<real>)
    requires logs.Laws()
    ensures Sum(Exps(logs, s)) >= 0.0 && (s != [] ==> Sum(Exps(logs, s)) > 0.0)
  {
    if s != [] {
      var e := Exps(logs, s);
      SumOfExpsPositive(logs, s[..|s| - 1]);
      assert logs.PointLaw(s[|s| - 1]);
      assert e[..|s| - 1] == Exps(logs, s[..|s| - 1]);
    }
  }

  // ----- chunks -----

  /**
   * Complete chunks of `size` tokens from the front: as many as fit, at most `limit`.
   * `None` for a size that is not positive.
   */
  method FullTokenChunks<T>(tokens: seq<T>, size: int, limit: int) returns (r: Option<seq<seq<T>>>)
    ensures r.None? <==> size <= 0
    ensures r.Some? ==> Chunked(tokens, size, r.value)
    ensures r.Some? ==>
      |r.value| == (if limit <= 0 then 0 else if |tokens| / size <= limit then |tokens| / size else limit)
  {
    if size <= 0 { return None; }
    if limit <= 0 { return Some([]); }
    var stop := if |tokens| - size + 1 <= limit * size then |tokens| - size + 1 else limit * size;
    var chunks: seq<seq<T>> := [];
    var start := 0;
    while start < stop
      invariant start == |chunks| * size
      invariant Chunked(tokens, size, chunks)
      invariant |chunks| <= limit && |chunks| * size <= |tokens|
    {
      Next(|chunks|, size, limit);
      OneMoreChunk(tokens, size, chunks, start);
      chunks := chunks + [tokens[start..start + size]];
      start := start + size;
    }
    CountIs(|chunks|, size, limit, |tokens|);
    return Some(chunks);
  }

  /** Chunk `i` is the `i`-th block of the input. */
  ghost predicate Chunked<T>(tokens: seq<T>, size: int, chunks: seq<seq<T>>) {
    forall i :: 0 <= i < |chunks| ==>
      0 <= i * size <= i * size + size <= |tokens| && chunks[i] == tokens[i * size..i * size + size]
  }

  lemma {:induction false} OneMoreChunk<T>(tokens: seq<T>, size: int, chunks: seq<seq<T>>, start: int)
    requires size > 0 && Chunked(tokens, size, chunks) && start == |chunks| * size && start + size <= |tokens|
    ensures Chunked(tokens, size, chunks + [tokens[start..start + size]])
    ensures (|chunks| + 1) * size == start + size
  {
    NextStart(|chunks|, size);
    var more := chunks + [tokens[start..start + size]];
    forall i | 0 <= i < |more|
      ensures 0 <= i * size <= i * size + size <= |tokens| && more[i] == tokens[i * size..i * size + size]
    {
      if i < |chunks| { assert more[i] == chunks[i]; } else { assert i * size == start; }
    }
  }

  lemma {:induction false} NextStart(n: nat, size: int)
    requires size > 0
    ensures n * size >= 0 && (n + 1) * size == n * size + size
  {}

  lemma {:induction false} Next(n: nat, size: int, limit: int)
    requires size > 0 && n * size < limit * size
    ensures n < limit
  {
    assert (n - limit) * size == n * size - limit * size;
  }

  lemma {:induction false} CountIs(n: nat, size: int, limit: int, total: nat)
    requires size > 0 && limit > 0 && n <= limit && n * size <= total
    requires n * size >= total - size + 1 || n * size >= limit * size
    ensures n == if total / size <= limit then total / size else limit
  {
    var q := total / size;
    assert q * size + total % size == total;
    if n > q { Block(q, n, size); }
    if n < q {
      Block(n, q, size);
      if n < limit { Block(n, limit, size); }
    }
  }

  lemma {:induction false} BlockStep(k: int, size: int)
    requires k > 0 && size >= 0
    ensures size <= k * size
  {
    if k > 1 {
      BlockStep(k - 1, size);
      assert k * size == (k - 1) * size + size;
    }
  }

  lemma {:induction false} Block(a: int, b: int, size: int)
    requires size > 0 && a < b
    ensures a * size + size <= b * size
  {
    BlockStep(b - a, size);
    assert b * size == a * size + (b - a) * size;
  }

  // ----- normalised log-probabilities -----

  function Omitted(logs: Logs, values: seq<real>, floor: real): real {
    var mass := Sum(Exps(logs, values));
    if mass < 1.0 then Max(logs.ln(1.0 - mass), floor) else floor
  }

  function Shifted(values: seq<real>, z: real): (r: seq<real>)
    ensures |r| == |values|
  {
    seq(|values|, i requires 0 <= i < |values| => values[i] - z)
  }

  /** The values and the bucket, shifted so that they are the logarithms of a distribution. */
  function Normalized(logs: Logs, values: seq<real>, floor: real): (r: seq<real>)
    ensures |r| == |values| + 1
  {
    var all := values + [Omitted(logs, values, floor)];
    Shifted(all, logs.ln(Sum(Exps(logs, all))))
  }

  lemma {:induction false} ShiftScales(logs: Logs, values: seq<real>, z: real)
    requires logs.Laws()
    ensures Sum(Exps(logs, Shifted(values, z))) * logs.exp(z) == Sum(Exps(logs, values))
  {
    if values != [] {
      var init, v := values[..|values| - 1], values[|values| - 1];
      ShiftScales(logs, init, z);
      assert Exps(logs, values)[..|init|] == Exps(logs, init);
      assert Exps(logs, Shifted(values, z))[..|init|] == Exps(logs, Shifted(init, z));
      assert logs.SumLaw(v - z, z) && v - z + z == v;
      Distribute(Sum(Exps(logs, Shifted(init, z))), logs.exp(v - z), logs.exp(z));
    }
  }

  lemma {:induction false} Distribute(a: real, b: real, c: real)
    ensures (a + b) * c == a * c + b * c
  {}

  /** Both normalised vectors are distributions: positive, and summing to one. */
  lemma {:induction false} NormalizedIsDistribution(logs: Logs, values: seq<real>, floor: real)
    requires logs.Laws()
    ensures Sum(Exps(logs, Normalized(logs, values, floor))) == 1.0
    ensures forall i :: 0 <= i <= |values| ==> Exps(logs, Normalized(logs, values, floor))[i] > 0.0
  {
    var all := values + [Omitted(logs, values, floor)];
    var total := Sum(Exps(logs, all));
    SumOfExpsPositive(logs, all);
    assert logs.PointLaw(total) && logs.exp(logs.ln(total)) == total;
    ShiftScales(logs, all, logs.ln(total));
    Cancel(Sum(Exps(logs, Shifted(all, logs.ln(total)))), logs.exp(logs.ln(total)), total);
    forall i | 0 <= i <= |values| ensures logs.exp(Normalized(logs, values, floor)[i]) > 0.0 {
      assert logs.PointLaw(Normalized(logs, values, floor)[i]);
    }
  }

  lemma {:induction false} Cancel(x: real, y: real, total: real)
    requires total > 0.0 && y == total && x * y == total
    ensures x == 1.0
  {
    assert (x - 1.0) * total == 0.0;
  }

  // ----- divergence -----

  function Term(logs: Logs, a: real, b: real): real { logs.exp(a) * (a - b) }

  function Terms(logs: Logs, p: seq<real>, q: seq<real>): (r: seq<real>)
    requires |p| == |q|
    ensures |r| == |p|
  {
    seq(|p|, i requires 0 <= i < |p| => Term(logs, p[i], q[i]))
  }

  /** `KL(p || q)` of two vectors of log-probabilities. */
  function Divergence(logs: Logs, p: seq<real>, q: seq<real>): real
    requires |p| == |q|
  {
    Sum(Terms(logs, p, q))
  }

  /** Each term is at least the difference of the two probabilities, and equals it only where they agree. */
  lemma {:induction false} TermBound(logs: Logs, a: real, b: real)
    requires logs.Laws()
    ensures Term(logs, a, b) >= logs.exp(a) - logs.exp(b)
    ensures Term(logs, a, b) == logs.exp(a) - logs.exp(b) ==> a == b
  {
    var d := b - a;
    assert logs.SumLaw(a, d) && a + d == b;
    assert logs.PointLaw(a) && logs.PointLaw(d);
    Slack(logs.exp(a), logs.exp(d), d, a - b, logs.exp(b));
  }

  lemma {:induction false} Slack(x: real, e: real, d: real, minus: real, y: real)
    requires x > 0.0 && d + 1.0 <= e && minus == -d && y == x * e
    ensures x * minus >= x - y
    ensures x * minus == x - y ==> d + 1.0 == e
  {
    var slack := e - (d + 1.0);
    assert x * slack == x * minus - (x - x * e);
    ProductSign(x, slack);
  }

  lemma {:induction false} ProductSign(x: real, y: real)
    requires x > 0.0 && y >= 0.0
    ensures x * y >= 0.0 && (x * y == 0.0 ==> y == 0.0)
  {}

  lemma {:induction false} Gibbs(logs: Logs, p: seq<real>, q: seq<real>)
    requires logs.Laws() && |p| == |q|
    ensures Divergence(logs, p, q) >= Sum(Exps(logs, p)) - Sum(Exps(logs, q))
    ensures Divergence(logs, p, q) == Sum(Exps(logs, p)) - Sum(Exps(logs, q)) ==> p == q
  {
    if p != [] {
      var n := |p| - 1;
      Gibbs(logs, p[..n], q[..n]);
      TermBound(logs, p[n], q[n]);
      assert Terms(logs, p, q)[..n] == Terms(logs, p[..n], q[..n]);
      assert Exps(logs, p)[..n] == Exps(logs, p[..n]) && Exps(logs, q)[..n] == Exps(logs, q[..n]);
      if Divergence(logs, p, q) == Sum(Exps(logs, p)) - Sum(Exps(logs, q)) {
        assert p == p[..n] + [p[n]] && q == q[..n] + [q[n]];
      }
    }
  }

  lemma {:induction false} SameHasNoDivergence(logs: Logs, p: seq<real>)
    ensures Divergence(logs, p, p) == 0.0
  {
    if p != [] {
      SameHasNoDivergence(logs, p[..|p| - 1]);
      assert Terms(logs, p, p)[..|p| - 1] == Terms(logs, p[..|p| - 1], p[..|p| - 1]);
    }
  }

  // ----- what is computed is what is meant -----

  lemma {:induction false} TotalOfTerms(logs: Logs, p: seq<real>, q: seq<real>)
    requires |p| == |q|
    ensures Total(Terms(logs, p, q)) == Expected(logs, p, q)
  {
    if p != [] {
      TotalOfTerms(logs, p[1..], q[1..]);
      assert Terms(logs, p, q)[1..] == Terms(logs, p[1..], q[1..]);
    }
  }

  lemma {:induction false} DivergenceIsExpected(logs: Logs, p: seq<real>, q: seq<real>)
    requires |p| == |q|
    ensures Divergence(logs, p, q) == Expected(logs, p, q)
  {
    SumIsTotal(Terms(logs, p, q));
    TotalOfTerms(logs, p, q);
  }

  lemma {:induction false} OmittedIsBucket(logs: Logs, values: seq<real>, floor: real)
    ensures IsBucket(logs, values, floor, Omitted(logs, values, floor))
  {
    SumIsMass(logs, values);
  }

  /** The normalised vector of what one side gives is its distribution. */
  lemma {:induction false} NormalizedIsMeant(
      logs: Logs, p: Position, ids: seq<int>, values: seq<real>, floor: real)
    requires logs.Laws() && |values| == |ids|
    requires forall i :: 0 <= i < |ids| ==> Gives(p, ids[i], floor, values[i])
    ensures IsDistribution(logs, p, ids, floor, Normalized(logs, values, floor))
  {
    var all, dist := values + [Omitted(logs, values, floor)], Normalized(logs, values, floor);
    OmittedIsBucket(logs, values, floor);
    assert all[..|ids|] == values;
    assert AreValues(logs, p, ids, floor, all);
    SumIsMass(logs, all);
    assert IsShifted(all, logs.ln(Mass(logs, all)), dist);
    NormalizedIsDistribution(logs, values, floor);
    SumIsMass(logs, dist);
  }
}
