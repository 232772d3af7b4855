/** The composite fidelity score: a harmonic mean over the axes that were scored, in exact reals. */
module Score {
  import opened Wrappers

  function Max(a: real, b: real): real { if a >= b then a else b }

  function Min(a: real, b: real): real { if a <= b then a else b }

  predicate Positive(s: seq<real>) { forall i :: 0 <= i < |s| ==> s[i] > 0.0 }

  /** Scores as every axis reports them, with zero excluded. */
  predicate Scores(s: seq<real>) { forall i :: 0 <= i < |s| ==> 0.0 < s[i] <= 100.0 }

  function Same(x: real): real { x }

  function Inverse(x: real): real { if x == 0.0 then 0.0 else 1.0 / x }

  /** The sum of `f(v)` over the values. */
  function Total(f: real -> real, s: seq<real>): real {
    if s == [] then 0.0 else Total(f, s[..|s| - 1]) + f(s[|s| - 1])
  }

  function Clipped(s: seq<real>): seq<real> {
    seq(|s|, i requires 0 <= i < |s| => Max(s[i], 0.0))
  }

  function HarmonicMean(values: seq<real>): (h: real)
    ensures 0.0 <= h <= 100.0
  {
    var clean := Clipped(values);
    if clean == [] || exists i :: 0 <= i < |clean| && clean[i] <= 0.0 then 0.0
    else
      InversesArePositive(clean);
      Min(Max(|clean| as real / Total(Inverse, clean), 0.0), 100.0)
  }

  function Band(score: real): string {
    if score >= 90.0 then "EXCELLENT"
    else if score >= 80.0 then "PASS"
    else if score >= 60.0 then "DEGRADED"
    else "FAIL"
  }

  // ----- totals -----

  lemma {:induction false} InversesArePositive(s: seq<real>)
    requires Positive(s)
    ensures Total(Inverse, s) >= 0.0 && (s != [] ==> Total(Inverse, s) > 0.0)
    ensures forall i :: 0 <= i < |s| ==> Inverse(s[i]) <= Total(Inverse, s)
  {
    if s != [] { InversesArePositive(s[..|s| - 1]); }
  }

  lemma {:induction false} SumIsPositive(s: seq<real>)
    requires Positive(s)
    ensures Total(Same, s) >= 0.0 && (s != [] ==> Total(Same, s) > 0.0)
  {
    if s != [] { SumIsPositive(s[..|s| - 1]); }
  }

  lemma {:induction false} TotalBetween(f: real -> real, s: seq<real>, low: real, high: real)
    requires forall i :: 0 <= i < |s| ==> low <= f(s[i]) <= high
    ensures |s| as real * low <= Total(f, s) <= |s| as real * high
  {
    if s != [] {
      TotalBetween(f, s[..|s| - 1], low, high);
      Spread(|s| - 1, low);
      Spread(|s| - 1, high);
    }
  }

  lemma {:induction false} Spread(n: nat, x: real)
    ensures (n + 1) as real * x == n as real * x + x
  {}

  lemma {:induction false} TotalMonotone(f: real -> real, s: seq<real>, t: seq<real>)
    requires |s| == |t| && forall i :: 0 <= i < |s| ==> f(s[i]) <= f(t[i])
    ensures Total(f, s) <= Total(f, t)
  {
    if s != [] { TotalMonotone(f, s[..|s| - 1], t[..|t| - 1]); }
  }

  function Without(s: seq<real>, i: nat): (rest: seq<real>)
    requires i < |s|
    ensures |rest| == |s| - 1
  {
    s[..i] + s[i + 1..]
  }

  lemma {:induction false} TotalWithout(f: real -> real, s: seq<real>, i: nat)
    requires i < |s|
    ensures Total(f, s) == Total(f, Without(s, i)) + f(s[i])
  {
    var init, rest := s[..|s| - 1], Without(s, i);
    if i < |s| - 1 {
      TotalWithout(f, init, i);
      assert rest[..|rest| - 1] == Without(init, i);
    } else {
      assert rest == init;
    }
  }

  lemma {:induction false} MultisetWithout(s: seq<real>, i: nat)
    requires i < |s|
    ensures multiset(s) == multiset(Without(s, i)) + multiset{s[i]}
  {
    assert s == s[..i] + [s[i]] + s[i + 1..];
  }

  lemma {:induction false} TotalIsOrderFree(f: real -> real, s: seq<real>, t: seq<real>)
    requires multiset(s) == multiset(t)
    ensures Total(f, s) == Total(f, t)
    decreases |s|
  {
    assert |s| == |multiset(s)| == |multiset(t)| == |t|;
    if s != [] {
      var last := |s| - 1;
      assert s[last] in multiset(t);
      var i :| 0 <= i < |t| && t[i] == s[last];
      MultisetWithout(s, last);
      MultisetWithout(t, i);
      assert multiset(Without(s, last)) == multiset(s) - multiset{s[last]} == multiset(Without(t, i));
      TotalIsOrderFree(f, Without(s, last), Without(t, i));
      TotalWithout(f, s, last);
      TotalWithout(f, t, i);
    }
  }

  // ----- facts about fractions -----

  lemma {:induction false} Quotient(n: real, r: real, bound: real)
    requires r > 0.0
    ensures n / r <= bound <==> n <= bound * r
    ensures n / r >= bound <==> n >= bound * r
  {
    var q := n / r;
    assert q * r == n;
    Scaling(q, bound, r);
  }

  lemma {:induction false} Scaling(a: real, b: real, r: real)
    requires r > 0.0
    ensures a <= b <==> a * r <= b * r
    ensures a >= b <==> a * r >= b * r
  {
    assert (b - a) * r == b * r - a * r;
  }

  lemma {:induction false} Reciprocal(a: real)
    requires a > 0.0
    ensures Inverse(a) * a == 1.0 && Inverse(a) > 0.0
  {}

  lemma {:induction false} Reciprocals(a: real, b: real)
    requires 0.0 < a <= b
    ensures Inverse(b) <= Inverse(a)
  {
    Quotient(1.0, b, Inverse(a));
    Reciprocal(a);
    Grows(Inverse(a), a, b);
  }

  lemma {:induction false} Grows(x: real, a: real, b: real)
    requires x >= 0.0 && a <= b
    ensures x * a <= x * b
  {
    assert x * b - x * a == x * (b - a);
  }

  lemma {:induction false} TwoSided(a: real, b: real, n: real)
    requires a > 0.0 && b > 0.0 && n >= 0.0 && a * b >= n * n
    ensures a + b >= 2.0 * n
  {
    assert (a + b) * (a + b) - 4.0 * (a * b) == (a - b) * (a - b);
    if a + b < 2.0 * n {
      Grows(a + b, a + b, 2.0 * n);
      Grows(2.0 * n, a + b, 2.0 * n);
      Strict(a + b, a + b, 2.0 * n);
    }
  }

  lemma {:induction false} Strict(x: real, a: real, b: real)
    requires x > 0.0 && a < b
    ensures x * a < x * b
  {
    assert x * b - x * a == x * (b - a);
  }

  // ----- the mean of scores in (0, 100] -----

  /** `n / (1/v1 + ... + 1/vn)`, before any clipping. */
  function Raw(s: seq<real>): (h: real)
    requires Positive(s) && s != []
    ensures h > 0.0
  {
    InversesArePositive(s);
    |s| as real / Total(Inverse, s)
  }

  /** Neither clip does anything to real scores. */
  lemma {:induction false} ClipIsNoOp(s: seq<real>)
    requires Scores(s) && s != []
    ensures HarmonicMean(s) == Raw(s) <= 100.0
  {
    assert Clipped(s) == s;
    InversesArePositive(s);
    forall i | 0 <= i < |s| ensures 0.01 <= Inverse(s[i]) {
      Reciprocals(s[i], 100.0);
    }
    var high := Total(Inverse, s);
    TotalBetween(Inverse, s, 0.01, high);
    Quotient(|s| as real, high, 100.0);
  }

  /** The mean is zero exactly when there is nothing to average or some axis is not positive. */
  lemma {:induction false} ZeroIff(s: seq<real>)
    ensures HarmonicMean(s) == 0.0 <==> s == [] || exists i :: 0 <= i < |s| && s[i] <= 0.0
  {
    var clean := Clipped(s);
    assert forall i :: 0 <= i < |s| ==> (clean[i] <= 0.0 <==> s[i] <= 0.0);
    if s != [] && Positive(s) {
      assert clean == s;
      assert Raw(s) > 0.0;
    }
  }

  ghost function SumOf(s: seq<real>): real { if s == [] then 0.0 else s[0] + SumOf(s[1..]) }

  lemma {:induction false} SumOfAppend(s: seq<real>, x: real)
    ensures SumOf(s + [x]) == SumOf(s) + x
  {
    if s == [] {
      assert (s + [x])[1..] == [];
    } else {
      assert (s + [x])[1..] == s[1..] + [x];
      SumOfAppend(s[1..], x);
    }
  }

  lemma {:induction false} InverseIs(x: real, r: real)
    requires x > 0.0 && r * x == 1.0
    ensures Inverse(x) == r
  {
    Reciprocal(x);
    assert (Inverse(x) - r) * x == 0.0;
  }

  lemma {:induction false} TotalOfReciprocals(s: seq<real>, rs: seq<real>)
    requires Positive(s) && |rs| == |s| && forall i :: 0 <= i < |s| ==> rs[i] * s[i] == 1.0
    ensures Total(Inverse, s) == SumOf(rs)
  {
    if s != [] {
      var n := |s| - 1;
      TotalOfReciprocals(s[..n], rs[..n]);
      InverseIs(s[n], rs[n]);
      SumOfAppend(rs[..n], rs[n]);
      assert rs == rs[..n] + [rs[n]];
    }
  }

  /** The mean times the sum of the reciprocals is the number of axes, unless that mean would be above 100. */
  lemma {:induction false} HarmonicExactly(s: seq<real>, rs: seq<real>, h: real, sum: real)
    requires Positive(s) && s != [] && |rs| == |s| && forall i :: 0 <= i < |s| ==> rs[i] * s[i] == 1.0
    requires h == HarmonicMean(s) && sum == SumOf(rs)
    ensures 100.0 * sum >= |s| as real ==> h * sum == |s| as real
    ensures 100.0 * sum <= |s| as real ==> h == 100.0
    ensures Scores(s) ==> 100.0 * sum >= |s| as real
  {
    TotalOfReciprocals(s, rs);
    HarmonicOfTotal(s, h, sum);
  }

  lemma {:induction false} HarmonicOfTotal(s: seq<real>, h: real, sum: real)
    requires Positive(s) && s != [] && h == HarmonicMean(s) && sum == Total(Inverse, s)
    ensures 100.0 * sum >= |s| as real ==> h * sum == |s| as real
    ensures 100.0 * sum <= |s| as real ==> h == 100.0
    ensures Scores(s) ==> 100.0 * sum >= |s| as real
  {
    InversesArePositive(s);
    ClippedAt(s);
    ClippedQuotient(h, Raw(s), sum, |s| as real);
    if Scores(s) { ClipIsNoOp(s); }
  }

  lemma {:induction false} ClippedAt(s: seq<real>)
    requires Positive(s) && s != []
    ensures HarmonicMean(s) == if Raw(s) <= 100.0 then Raw(s) else 100.0
  {
    assert Clipped(s) == s;
  }

  lemma {:induction false} ClippedQuotient(h: real, raw: real, t: real, n: real)
    requires t > 0.0 && raw == n / t && h == if raw <= 100.0 then raw else 100.0
    ensures 100.0 * t >= n ==> h * t == n
    ensures 100.0 * t <= n ==> h == 100.0
    ensures raw <= 100.0 ==> 100.0 * t >= n
  {
    assert raw * t == n;
    Quotient(n, t, 100.0);
  }

  /** No lower than the worst axis. */
  lemma {:induction false} AtLeastMinimum(s: seq<real>, m: real)
    requires Scores(s) && s != [] && m > 0.0 && forall i :: 0 <= i < |s| ==> m <= s[i]
    ensures m <= HarmonicMean(s)
  {
    ClipIsNoOp(s);
    RawAtLeast(s, m);
  }

  lemma {:induction false} RawAtLeast(s: seq<real>, m: real)
    requires Positive(s) && s != [] && m > 0.0 && forall i :: 0 <= i < |s| ==> m <= s[i]
    ensures m <= Raw(s)
  {
    InversesArePositive(s);
    InversesBelow(s, m, Inverse(m));
    AtLeastMean(|s| as real, Total(Inverse, s), m);
  }

  lemma {:induction false} AtLeastMean(n: real, r: real, m: real)
    requires m > 0.0 && 0.0 < r <= n * Inverse(m)
    ensures m <= n / r
  {
    Reciprocal(m);
    AtLeast(n, r, m, Inverse(m));
  }

  lemma {:induction false} InversesBelow(s: seq<real>, m: real, w: real)
    requires m > 0.0 && (forall i :: 0 <= i < |s| ==> m <= s[i]) && w == Inverse(m)
    ensures Total(Inverse, s) <= |s| as real * w
  {
    forall i | 0 <= i < |s| ensures 0.0 <= Inverse(s[i]) <= w {
      Reciprocals(m, s[i]);
      Reciprocal(s[i]);
    }
    TotalBetween(Inverse, s, 0.0, w);
  }

  lemma {:induction false} AtLeast(n: real, r: real, m: real, w: real)
    requires m > 0.0 && w * m == 1.0 && 0.0 < r <= n * w
    ensures m <= n / r
  {
    Grows(m, r, n * w);
    Regroup(m, n, w);
    Quotient(n, r, m);
  }

  lemma {:induction false} Regroup(m: real, n: real, inverse: real)
    requires inverse * m == 1.0
    ensures m * (n * inverse) == n
  {
    assert m * (n * inverse) == n * (inverse * m);
  }

  /** At most `n` times any axis: one bad axis drags the composite down. */
  lemma {:induction false} AtMostTimesAnyAxis(s: seq<real>, i: nat)
    requires Scores(s) && i < |s|
    ensures HarmonicMean(s) <= |s| as real * s[i]
  {
    ClipIsNoOp(s);
    InversesArePositive(s);
    Reciprocal(s[i]);
    AtMost(|s| as real, Total(Inverse, s), s[i], Inverse(s[i]));
  }

  lemma {:induction false} AtMost(n: real, r: real, x: real, w: real)
    requires n >= 0.0 && x > 0.0 && w * x == 1.0 && w <= r && r > 0.0
    ensures n / r <= n * x
  {
    Grows(n * x, w, r);
    assert n * x * w == n * (w * x);
    Quotient(n, r, n * x);
  }

  lemma {:induction false} SquareBelowProduct(s: seq<real>)
    requires Positive(s)
    ensures |s| as real * |s| as real <= Total(Same, s) * Total(Inverse, s)
  {
    if s != [] {
      var init, v := s[..|s| - 1], s[|s| - 1];
      SquareBelowProduct(init);
      SumIsPositive(init);
      InversesArePositive(init);
      Reciprocal(v);
      OneMore(|init| as real, Total(Same, init), Total(Inverse, init), v, Inverse(v));
    }
  }

  lemma {:induction false} OneMore(n: real, a: real, r: real, v: real, w: real)
    requires n >= 0.0 && v > 0.0 && w > 0.0 && w * v == 1.0 && n * n <= a * r
    requires (n == 0.0 && a == 0.0 && r == 0.0) || (a > 0.0 && r > 0.0)
    ensures (n + 1.0) * (n + 1.0) <= (a + v) * (r + w)
  {
    assert (a + v) * (r + w) == a * r + a * w + r * v + w * v;
    if a > 0.0 {
      Products(a, r, v, w);
      TwoSided(a * w, r * v, n);
    }
  }

  lemma {:induction false} Products(a: real, r: real, v: real, w: real)
    requires w * v == 1.0 && a > 0.0 && r > 0.0 && v > 0.0 && w > 0.0
    ensures (a * w) * (r * v) == a * r && a * w > 0.0 && r * v > 0.0
  {
    assert (a * w) * (r * v) == (a * r) * (w * v);
  }

  /** The harmonic mean never exceeds the arithmetic mean. */
  lemma {:induction false} BelowArithmeticMean(s: seq<real>)
    requires Scores(s) && s != []
    ensures HarmonicMean(s) <= Total(Same, s) / |s| as real
  {
    ClipIsNoOp(s);
    SquareBelowProduct(s);
    InversesArePositive(s);
    CrossMultiply(|s| as real, Total(Same, s), Total(Inverse, s));
  }

  lemma {:induction false} CrossMultiply(n: real, a: real, r: real)
    requires n > 0.0 && r > 0.0 && n * n <= a * r
    ensures n / r <= a / n
  {
    var q := n / r;
    assert q * r == n;
    Quotient(a, n, q);
    assert (q * n) * r == n * n;
    Scaling(q * n, a, r);
  }

  /** Improving axes never lowers the composite. */
  lemma {:induction false} Monotone(s: seq<real>, t: seq<real>)
    requires Scores(s) && Scores(t) && |s| == |t| && s != [] && forall i :: 0 <= i < |s| ==> s[i] <= t[i]
    ensures HarmonicMean(s) <= HarmonicMean(t)
  {
    ClipIsNoOp(s);
    ClipIsNoOp(t);
    forall i | 0 <= i < |s| ensures Inverse(t[i]) <= Inverse(s[i]) { Reciprocals(s[i], t[i]); }
    TotalMonotone(Inverse, t, s);
    InversesArePositive(s);
    InversesArePositive(t);
    SmallerDivisor(|s| as real, Total(Inverse, s), Total(Inverse, t));
  }

  lemma {:induction false} SmallerDivisor(n: real, r: real, smaller: real)
    requires n > 0.0 && 0.0 < smaller <= r
    ensures n / r <= n / smaller
  {
    var q := n / smaller;
    assert q * smaller == n;
    Grows(q, smaller, r);
    Quotient(n, r, q);
  }

  /** The order of the axes does not matter. */
  lemma {:induction false} OrderFree(s: seq<real>, t: seq<real>)
    requires Scores(s) && Scores(t) && s != [] && multiset(s) == multiset(t)
    ensures HarmonicMean(s) == HarmonicMean(t)
  {
    assert |s| == |multiset(s)| == |multiset(t)| == |t|;
    ClipIsNoOp(s);
    ClipIsNoOp(t);
    TotalIsOrderFree(Inverse, s, t);
  }

  /** Adding an axis lowers the composite exactly when the axis is worse than the composite. */
  lemma {:induction false} AppendedAxis(s: seq<real>, v: real)
    requires Scores(s) && s != [] && 0.0 < v <= 100.0
    ensures HarmonicMean(s) <= HarmonicMean(s + [v]) <==> HarmonicMean(s) <= v
  {
    ClipIsNoOp(s);
    ClipIsNoOp(s + [v]);
    RawAppended(s, v);
  }

  lemma {:induction false} RawAppended(s: seq<real>, v: real)
    requires Positive(s) && s != [] && v > 0.0
    ensures Positive(s + [v]) && (Raw(s) <= Raw(s + [v]) <==> Raw(s) <= v)
  {
    InversesArePositive(s);
    Reciprocal(v);
    assert (s + [v])[..|s|] == s;
    Mediant(|s| as real, Total(Inverse, s), v, Inverse(v));
  }

  lemma {:induction false} Mediant(n: real, r: real, v: real, w: real)
    requires n > 0.0 && r > 0.0 && v > 0.0 && w > 0.0 && w * v == 1.0
    ensures n / r <= (n + 1.0) / (r + w) <==> n / r <= v
  {
    var h := n / r;
    assert h * r == n;
    assert h * (r + w) == n + h * w;
    Quotient(n + 1.0, r + w, h);
    Scaling(h, v, w);
  }

  // ----- the composite of the axes that were run -----

  function Axis(score: Option<real>): seq<real> { if score.Some? then [score.value] else [] }

  /** The least score a reference must reach against itself. */
  const MIN_FLOOR := 99.5

  /**
   * The axes that were scored, appended in the fixed order. The measured floor is judged by itself: it leaves the
   * composite and its band alone, and adds the one note exactly when it was measured and is too low.
   */
  method CompositeScore(
    gtm: Option<real>, kld: Option<real>, rniah: Option<real>, plad: Option<real>, floor: Option<real>)
    returns (composite: real, band: string, floorOk: Option<bool>, floorNote: bool)
    ensures composite == HarmonicMean(Axis(gtm) + Axis(kld) + Axis(rniah) + Axis(plad))
    ensures band == "EXCELLENT" <==> composite >= 90.0
    ensures band == "PASS" <==> 80.0 <= composite < 90.0
    ensures band == "DEGRADED" <==> 60.0 <= composite < 80.0
    ensures band == "FAIL" <==> composite < 60.0
    ensures floorOk.Some? <==> floor.Some?
    ensures floor.Some? ==> (floorOk == Some(true) <==> floor.value >= MIN_FLOOR)
    ensures floorNote <==> floor.Some? && floor.value < MIN_FLOOR
  {
    var axes: seq<real> := [];
    if gtm.Some? { axes := axes + [gtm.value]; }
    if kld.Some? { axes := axes + [kld.value]; }
    if rniah.Some? { axes := axes + [rniah.value]; }
    if plad.Some? { axes := axes + [plad.value]; }
    assert axes == Axis(gtm) + Axis(kld) + Axis(rniah) + Axis(plad);
    composite := if axes != [] then HarmonicMean(axes) else 0.0;
    band := Band(composite);
    floorOk, floorNote := None, false;
    if floor.Some? {
      floorOk := Some(floor.value >= MIN_FLOOR);
      floorNote := floorOk == Some(false);
    }
  }

  lemma {:induction false} Inserted(before: seq<real>, after: seq<real>, v: real)
    requires Scores(before + after) && 0.0 < v <= 100.0
    ensures multiset(before + [v] + after) == multiset(before + after + [v])
    ensures Scores(before + [v] + after)
  {
    var s, more := before + after, before + [v] + after;
    forall i | 0 <= i < |more| ensures 0.0 < more[i] <= 100.0 {
      assert more[i] == if i < |before| then s[i] else if i == |before| then v else s[i - 1];
    }
  }

  /** A skipped axis is dropped; scoring it 100 instead, anywhere in the order, could only raise the composite. */
  lemma {:induction false} StubNeverLowers(before: seq<real>, after: seq<real>)
    requires Scores(before + after)
    ensures HarmonicMean(before + after) <= HarmonicMean(before + [100.0] + after)
  {
    var s, stubbed := before + after, before + [100.0] + after;
    if s != [] {
      AppendedAxis(s, 100.0);
      Inserted(before, after, 100.0);
      OrderFree(stubbed, s + [100.0]);
    }
  }

  /** With at most four axes, one axis under 15 makes the whole composite fail. */
  lemma {:induction false} OneBadAxisFails(s: seq<real>, i: nat)
    requires Scores(s) && i < |s| <= 4 && s[i] < 15.0
    ensures Band(HarmonicMean(s)) == "FAIL"
  {
    AtMostTimesAnyAxis(s, i);
    Grows(s[i], |s| as real, 4.0);
  }
}
