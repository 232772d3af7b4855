/** `execute_study`: every run in order, every pair compared once, analyses only for comparable pairs. */
module Study {
  import opened Wrappers
  import opened Paths
  import opened Plans
  import opened Records
  import opened Comparison
  import opened ComparisonTheorems

  /** A run record with the study and run it claims to belong to. */
  datatype Entry = Entry(study: string, runId: string, record: Record)

  datatype Reply = Gives(entry: Entry) | GivesOtherType | Raises | Interrupts

  datatype SinkReply = Stored | SinkRaises | SinkInterrupts

  datatype Datum = Text(text: string) | Flag(flag: bool) | Number(number: real) | Other

  datatype Summary = Summary(definition: MetricDefinition, aggregation: string, value: Datum, coverage: Datum)

  datatype Measured = Measured(evidence: map<string, Datum>, metrics: map<string, Summary>)

  datatype AnalyzerReply = Measures(result: Measured) | AnalyzerRaises | AnalyzerInterrupts

  datatype AnalysisStatus = Done | Skipped | Broken

  datatype Analysis = Analysis(name: string, version: string, status: AnalysisStatus, result: Option<Measured>)

  datatype Pair = Pair(left: nat, right: nat, report: Report, analyses: seq<Analysis>)

  datatype Outcome = Finished(records: seq<Entry>, pairs: seq<Pair>) | Raised | WasInterrupted

  /** The run identifier `run-%04d`. */
  function RunId(index: nat): string {
    var digits := Decimal(index);
    "run-" + (if |digits| < 4 then seq(4 - |digits|, _ => '0') else "") + digits
  }

  lemma {:induction false} ZerosWeighNothing(n: nat, digits: string)
    ensures PlaceValue(seq(n, _ => '0') + digits) == PlaceValue(digits)
  {
    var s := seq(n, _ => '0') + digits;
    if n == 0 {
      assert s == digits;
    } else {
      assert s[1..] == seq(n - 1, _ => '0') + digits;
      ZerosWeighNothing(n - 1, digits);
    }
  }

  /** The identifier is `run-` and the index, in at least four digits and no more zeros before it than that takes. */
  lemma {:induction false} RunIdReads(index: nat)
    ensures
      var digits := RunId(index)[4..];
      && RunId(index)[..4] == "run-" && IsDigits(digits) && PlaceValue(digits) == index
      && |digits| >= 4 && (|digits| > 4 ==> digits[0] != '0')
  {
    var plain := Decimal(index);
    DecimalExact(index, plain);
    if |plain| < 4 { ZerosWeighNothing(4 - |plain|, plain); }
    var zeros := if |plain| < 4 then seq(4 - |plain|, _ => '0') else "";
    assert RunId(index)[4..] == zeros + plain;
  }

  /** The record answers the run that was asked for. */
  ghost predicate Bound(entry: Entry, study: string, index: nat, spec: RunSpec) {
    entry.study == study && entry.runId == RunId(index) && entry.record.requested == spec
  }

  // ----- analyses of one pair -----

  /** What is reported of one analysis: skipped for an incompatible pair, else done if the analyzer measures. */
  ghost predicate AnalysisFits(a: Analysis, compatible: bool, name: string, version: string, reply: AnalyzerReply) {
    && a.name == name && a.version == version
    && (a.status == Skipped <==> !compatible)
    && (a.status == Done <==> compatible && reply.Measures?)
    && a.result == if compatible && reply.Measures? then Some(reply.result) else None
  }

  /** One outcome for every requested analysis, in order. */
  ghost predicate AnalysesFit(
    names: seq<string>, versions: map<string, string>, reply: string -> AnalyzerReply, compatible: bool,
    outcomes: seq<Analysis>)
  {
    && |outcomes| == |names|
    && forall k :: 0 <= k < |names| && names[k] in versions ==>
      AnalysisFits(outcomes[k], compatible, names[k], versions[names[k]], reply(names[k]))
  }

  /** `called` lists the analyzers that were run. */
  method AnalyzePair(
      compatible: bool, names: seq<string>, versions: map<string, string>, reply: string -> AnalyzerReply)
    returns (interrupted: bool, outcomes: seq<Analysis>, called: seq<string>)
    requires forall n :: n in names ==> n in versions
    ensures |outcomes| <= |names|
    ensures forall k :: 0 <= k < |outcomes| ==>
      AnalysisFits(outcomes[k], compatible, names[k], versions[names[k]], reply(names[k]))
    ensures interrupted <==> compatible && exists n :: n in names && reply(n).AnalyzerInterrupts?
    ensures !interrupted ==> |outcomes| == |names|
    ensures !compatible ==> called == []
    ensures compatible && !interrupted ==> called == names
  {
    outcomes, called := [], [];
    for i := 0 to |names|
      invariant |outcomes| == i
      invariant forall k :: 0 <= k < i ==>
        AnalysisFits(outcomes[k], compatible, names[k], versions[names[k]], reply(names[k]))
      invariant called == if compatible then names[..i] else []
      invariant compatible ==> forall n :: n in names[..i] ==> !reply(n).AnalyzerInterrupts?
    {
      var name := names[i];
      assert name in names;
      assert names[..i + 1] == names[..i] + [name];
      if !compatible {
        outcomes := outcomes + [Analysis(name, versions[name], Skipped, None)];
        continue;
      }
      called := called + [name];
      match reply(name) {
        case AnalyzerInterrupts => return true, outcomes, called;
        case AnalyzerRaises => outcomes := outcomes + [Analysis(name, versions[name], Broken, None)];
        case Measures(result) => outcomes := outcomes + [Analysis(name, versions[name], Done, Some(result))];
      }
    }
    assert names[..|names|] == names;
    return false, outcomes, called;
  }

  // ----- the pairs of a study -----

  function RowFrom(i: nat, j: nat, n: nat): (row: seq<(nat, nat)>)
    ensures |row| == if j <= n then n - j else 0
    ensures forall k :: 0 <= k < |row| ==> row[k] == (i, j + k)
    decreases n - j
  {
    if j >= n then [] else [(i, j)] + RowFrom(i, j + 1, n)
  }

  /** All index pairs with the smaller index first, from row `i` on. */
  function PairsFrom(i: nat, n: nat): seq<(nat, nat)>
    decreases n - i
  {
    if i >= n then [] else RowFrom(i, i + 1, n) + PairsFrom(i + 1, n)
  }

  function Pairs(n: nat): seq<(nat, nat)> { PairsFrom(0, n) }

  ghost predicate Before(p: (nat, nat), q: (nat, nat)) {
    p.0 < q.0 || (p.0 == q.0 && p.1 < q.1)
  }

  lemma {:induction false} PairsFromCount(i: nat, n: nat)
    requires i <= n
    ensures 2 * |PairsFrom(i, n)| == (n - i) * (n - i - 1)
    decreases n - i
  {
    if i < n {
      PairsFromCount(i + 1, n);
      assert (n - i) * (n - i - 1) == (n - i - 1) * (n - i - 2) + 2 * (n - i - 1);
    }
  }

  lemma {:induction false} PairsFromMembers(i: nat, n: nat, p: (nat, nat))
    ensures p in PairsFrom(i, n) <==> i <= p.0 < p.1 < n
    decreases n - i
  {
    if i < n {
      PairsFromMembers(i + 1, n, p);
      var row := RowFrom(i, i + 1, n);
      if p.0 == i && i < p.1 < n { assert row[p.1 - i - 1] == p; }
    }
  }

  lemma {:induction false} PairsFromOrdered(i: nat, n: nat, a: nat, b: nat)
    requires a < b < |PairsFrom(i, n)|
    ensures Before(PairsFrom(i, n)[a], PairsFrom(i, n)[b])
    decreases n - i
  {
    var row, rest := RowFrom(i, i + 1, n), PairsFrom(i + 1, n);
    if a >= |row| {
      PairsFromOrdered(i + 1, n, a - |row|, b - |row|);
    } else if b >= |row| {
      PairsFromMembers(i + 1, n, rest[b - |row|]);
    }
  }

  /** Every unordered pair exactly once, earlier run first, in study order. */
  lemma {:induction false} PairsExact(n: nat)
    ensures forall p :: p in Pairs(n) <==> p.0 < p.1 < n
    ensures forall a, b :: 0 <= a < b < |Pairs(n)| ==> Before(Pairs(n)[a], Pairs(n)[b])
    ensures 2 * |Pairs(n)| == n * (n - 1)
  {
    forall p ensures p in Pairs(n) <==> p.0 < p.1 < n { PairsFromMembers(0, n, p); }
    forall a, b | 0 <= a < b < |Pairs(n)| ensures Before(Pairs(n)[a], Pairs(n)[b]) { PairsFromOrdered(0, n, a, b); }
    PairsFromCount(0, n);
  }

  // ----- the study -----

  /** A study with its registries: analyzer versions by name, and how every collaborator will answer. */
  datatype Setup = Setup(
    study: string,
    runs: seq<RunSpec>,
    plan: Plan,
    analyses: seq<string>,
    versions: map<string, string>,
    reply: nat -> Reply,
    sink: nat -> SinkReply,
    analyze: (Entry, Entry, string) -> AnalyzerReply)
  {
    /** What plan construction and the registry checks establish before the first run. */
    ghost predicate Validated() {
      Accepted(plan) && forall n :: n in analyses ==> n in versions
    }
  }

  /** Run `k` was executed, belonged to the request and was stored. */
  ghost predicate RunHolds(s: Setup, k: nat, entry: Entry)
    requires k < |s.runs|
  {
    s.reply(k) == Gives(entry) && Bound(entry, s.study, k, s.runs[k]) && s.sink(k).Stored?
  }

  /** The records of the first runs, in order. */
  ghost predicate RunsHold(s: Setup, records: seq<Entry>) {
    |records| <= |s.runs| && forall k :: 0 <= k < |records| ==> RunHolds(s, k, records[k])
  }

  /** How run `k` ended the study. */
  ghost predicate RunEnds(s: Setup, k: nat, interrupted: bool)
    requires k < |s.runs|
  {
    match s.reply(k)
    case Interrupts => interrupted
    case Raises => !interrupted
    case GivesOtherType => !interrupted
    case Gives(entry) =>
      if !Bound(entry, s.study, k, s.runs[k]) then !interrupted
      else if interrupted then s.sink(k).SinkInterrupts? else s.sink(k).SinkRaises?
  }

  ghost predicate PairHolds(s: Setup, records: seq<Entry>, index: (nat, nat), pair: Pair)
    requires index.0 < |records| && index.1 < |records|
  {
    var l, r := records[index.0], records[index.1];
    && pair.left == index.0 && pair.right == index.1
    && ReportFits(l.record, r.record, s.plan, pair.report)
    && (pair.report.compatible <==> Compatible(l.record, r.record, s.plan))
    && AnalysesFit(s.analyses, s.versions, n => s.analyze(l, r, n), pair.report.compatible, pair.analyses)
  }

  /** The pair is the one in place `k`. */
  ghost predicate PairAt(s: Setup, records: seq<Entry>, k: nat, pair: Pair)
    requires k < |Pairs(|records|)|
  {
    var index := Pairs(|records|)[k];
    index.0 < |records| && index.1 < |records| && PairHolds(s, records, index, pair)
  }

  /** The pairs so far, one in each place from the front. */
  ghost predicate PairsHold(s: Setup, records: seq<Entry>, pairs: seq<Pair>) {
    pairs == []
    || (&& |pairs| <= |Pairs(|records|)|
        && PairsHold(s, records, pairs[..|pairs| - 1]) && PairAt(s, records, |pairs| - 1, pairs[|pairs| - 1]))
  }

  lemma {:induction false} EachPairHolds(s: Setup, records: seq<Entry>, pairs: seq<Pair>, k: nat)
    requires PairsHold(s, records, pairs) && k < |pairs|
    ensures |pairs| <= |Pairs(|records|)| && PairAt(s, records, k, pairs[k])
  {
    if k < |pairs| - 1 { EachPairHolds(s, records, pairs[..|pairs| - 1], k); }
  }

  method ComparePair(s: Setup, records: seq<Entry>, i: nat, j: nat) returns (interrupted: bool, pair: Pair)
    requires s.Validated() && i < |records| && j < |records|
    ensures interrupted ==>
      exists n :: n in s.analyses && s.analyze(records[i], records[j], n).AnalyzerInterrupts?
    ensures !interrupted ==> PairHolds(s, records, (i, j), pair)
  {
    var l, r := records[i], records[j];
    var report := CompareRuns(l.record, r.record, s.plan);
    FlagIsCompatible(l.record, r.record, s.plan, report);
    var analyses, called;
    interrupted, analyses, called := AnalyzePair(report.compatible, s.analyses, s.versions, n => s.analyze(l, r, n));
    pair := Pair(i, j, report, analyses);
  }

  /** `saved` is what the sink stored. */
  method ExecuteRuns(s: Setup) returns (stop: Option<Outcome>, saved: seq<Entry>)
    ensures RunsHold(s, saved)
    ensures stop.None? ==> |saved| == |s.runs|
    ensures stop.Some? ==> stop.value in {Raised, WasInterrupted}
    ensures stop.Some? ==> |saved| < |s.runs| && RunEnds(s, |saved|, stop.value == WasInterrupted)
  {
    saved := [];
    for k := 0 to |s.runs|
      invariant |saved| == k && RunsHold(s, saved)
    {
      match s.reply(k) {
        case Raises => return Some(Raised), saved;
        case GivesOtherType => return Some(Raised), saved;
        case Interrupts => return Some(WasInterrupted), saved;
        case Gives(entry) =>
          if entry.study != s.study || entry.runId != RunId(k) { return Some(Raised), saved; }
          if entry.record.requested != s.runs[k] { return Some(Raised), saved; }
          match s.sink(k) {
            case SinkRaises => return Some(Raised), saved;
            case SinkInterrupts => return Some(WasInterrupted), saved;
            case Stored => saved := saved + [entry];
          }
      }
    }
    return None, saved;
  }

  lemma {:induction false} PairsGrow(s: Setup, records: seq<Entry>, pairs: seq<Pair>, pair: Pair, more: seq<Pair>)
    requires PairsHold(s, records, pairs) && |pairs| < |Pairs(|records|)| && more == pairs + [pair]
    requires PairAt(s, records, |pairs|, pair)
    ensures PairsHold(s, records, more)
  {
    assert more[..|pairs|] == pairs;
  }

  /** An analyzer of some pair was interrupted. */
  ghost predicate AnalysisInterrupts(s: Setup, records: seq<Entry>, p: (nat, nat)) {
    && p.0 < p.1 < |records|
    && exists n :: n in s.analyses && s.analyze(records[p.0], records[p.1], n).AnalyzerInterrupts?
  }

  method ComparePairs(s: Setup, records: seq<Entry>) returns (interrupted: bool, pairs: seq<Pair>)
    requires s.Validated()
    ensures PairsHold(s, records, pairs)
    ensures !interrupted ==> |pairs| == |Pairs(|records|)|
    ensures interrupted ==> |pairs| < |Pairs(|records|)| && AnalysisInterrupts(s, records, Pairs(|records|)[|pairs|])
  {
    pairs := [];
    var indices := Pairs(|records|);
    for k := 0 to |indices|
      invariant |pairs| == k && PairsHold(s, records, pairs)
    {
      PairsFromMembers(0, |records|, indices[k]);
      var pair;
      interrupted, pair := ComparePair(s, records, indices[k].0, indices[k].1);
      if interrupted { return true, pairs; }
      PairsGrow(s, records, pairs, pair, pairs + [pair]);
      pairs := pairs + [pair];
    }
    return false, pairs;
  }

  method ExecuteStudy(s: Setup) returns (outcome: Outcome, saved: seq<Entry>)
    requires s.Validated()
    ensures RunsHold(s, saved)
    ensures outcome.Finished? ==> outcome.records == saved && |saved| == |s.runs|
    ensures outcome.Finished? ==> PairsHold(s, saved, outcome.pairs) && |outcome.pairs| == |Pairs(|saved|)|
    ensures |saved| < |s.runs| ==> !outcome.Finished? && RunEnds(s, |saved|, outcome.WasInterrupted?)
    ensures |saved| == |s.runs| ==> !outcome.Raised?
    ensures |saved| == |s.runs| && outcome.WasInterrupted? ==> exists p :: AnalysisInterrupts(s, saved, p)
  {
    var stop;
    stop, saved := ExecuteRuns(s);
    if stop.Some? { return stop.value, saved; }
    var interrupted, pairs := ComparePairs(s, saved);
    if interrupted { return WasInterrupted, saved; }
    return Finished(saved, pairs), saved;
  }
}
