/** The verifier: the verdict ladder over a study of two runs, and the receipt that carries it to the parent. */
module Verdicts {
  import opened Wrappers
  import opened Plans
  import opened Records
  import opened Comparison
  import opened ComparisonTheorems
  import opened Study
  import opened Policies
  import Execution

  datatype Verdict =
    | Verified | PolicyPass | PolicyFail | InvalidConfiguration | NotComparable | Insufficient | ExecutionFailed

  function ExitCode(v: Verdict): nat {
    match v
    case Verified => 0 case PolicyPass => 0 case PolicyFail => 1 case InvalidConfiguration => 2
    case NotComparable => 3 case Insufficient => 4 case ExecutionFailed => 5
  }

  const INTERRUPT_CODE: nat := 130

  /** The three verdicts that claim a completed comparison. */
  const CONCLUSIVE: set<Verdict> := {Verified, PolicyPass, PolicyFail}

  /** What a qualified profile adds to a study: its evidence requirements, and the optional policy. */
  datatype Profile = Profile(
    gaps: Entry -> bool, metricErrors: Analysis -> bool, targets: map<string, Target>, policy: Option<seq<Criterion>>)
  {
    ghost predicate Valid() {
      TargetsOk(targets) && (policy.Some? ==> PolicyOk(targets, policy.value))
    }
  }

  /** `gate` is the verdict before the policy. */
  datatype Manifest = Manifest(gate: Verdict, verdict: Verdict, exitCode: nat, records: seq<Entry>)

  const FAILED_STATUSES: set<RunStatus> := {PreflightFailed, Failed, TimedOut, Interrupted, Cancelled}

  /** An analyzer refuses a pair whose evidence has gaps. */
  function Checked(s: Setup, p: Profile): Setup {
    s.(analyze := (l: Entry, r: Entry, n: string) =>
         if p.gaps(l) || p.gaps(r) then AnalyzerRaises else s.analyze(l, r, n))
  }

  // ----- the ladder -----

  ghost predicate Complete(p: Profile, records: seq<Entry>) {
    forall k :: 0 <= k < |records| ==> records[k].record.status == Completed && !p.gaps(records[k])
  }

  ghost predicate AllDone(outcomes: seq<Analysis>) {
    outcomes != [] && forall k :: 0 <= k < |outcomes| ==> outcomes[k].status == Done
  }

  ghost predicate Readable(p: Profile, outcomes: seq<Analysis>) {
    forall k :: 0 <= k < |outcomes| ==> !p.metricErrors(outcomes[k])
  }

  ghost predicate SomeFailed(records: seq<Entry>) {
    exists k :: 0 <= k < |records| && records[k].record.status in FAILED_STATUSES
  }

  method Gate(p: Profile, interrupted: bool, records: seq<Entry>, compatible: bool, outcomes: seq<Analysis>)
    returns (v: Verdict)
    ensures v in {Verified, NotComparable, Insufficient, ExecutionFailed}
    ensures v == Verified <==>
      !interrupted && Complete(p, records) && compatible && AllDone(outcomes) && Readable(p, outcomes)
    ensures v == NotComparable <==> !interrupted && Complete(p, records) && !compatible
    ensures v == ExecutionFailed <==>
      interrupted || SomeFailed(records) || (Complete(p, records) && compatible && !AllDone(outcomes))
  {
    if interrupted || exists k :: 0 <= k < |records| && records[k].record.status in FAILED_STATUSES {
      return ExecutionFailed;
    }
    if (exists k :: 0 <= k < |records| && records[k].record.status != Completed)
       || exists k :: 0 <= k < |records| && p.gaps(records[k]) {
      return Insufficient;
    }
    if !compatible { return NotComparable; }
    if outcomes == [] || exists k :: 0 <= k < |outcomes| && outcomes[k].status != Done { return ExecutionFailed; }
    if exists k :: 0 <= k < |outcomes| && p.metricErrors(outcomes[k]) { return Insufficient; }
    return Verified;
  }

  // ----- the verifier -----

  /** The entry stands in for run `k`: its request, a status, and no evidence. */
  ghost predicate StandsFor(e: Entry, study: string, k: nat, spec: RunSpec, status: RunStatus) {
    && e.study == study && e.runId == RunId(k) && e.record.requested == spec && e.record.status == status
    && e.record.resolved == map[] && e.record.observed == map[] && e.record.metrics == map[]
  }

  /** An interrupt left the records from `saved` on: the first missing run was interrupted, the others never began. */
  ghost function WithPlaceholders(s: Setup, saved: seq<Entry>): (all: seq<Entry>)
    requires |saved| <= |s.runs|
    ensures |all| == |s.runs| && all[..|saved|] == saved
    ensures forall k :: |saved| <= k < |s.runs| ==>
      StandsFor(all[k], s.study, k, s.runs[k], if k == |saved| then RunStatus.Interrupted else Cancelled)
  {
    var missing := seq(|s.runs| - |saved|, i requires 0 <= i < |s.runs| - |saved| =>
      Placeholder(s, |saved| + i, if i == 0 then RunStatus.Interrupted else Cancelled));
    assert forall k :: |saved| <= k < |s.runs| ==>
      (saved + missing)[k] == Placeholder(s, k, if k == |saved| then RunStatus.Interrupted else Cancelled);
    saved + missing
  }

  function Placeholder(s: Setup, k: nat, status: RunStatus): (e: Entry)
    requires k < |s.runs|
    ensures StandsFor(e, s.study, k, s.runs[k], status)
  {
    Entry(s.study, RunId(k), Record(s.runs[k], map[], map[], status, map[]))
  }

  /** Everything a conclusive verdict stands for. */
  ghost predicate Sound(s: Setup, p: Profile, records: seq<Entry>) {
    && |records| == 2 == |s.runs| && RunsHold(s, records)
    && Complete(p, records)
    && Compatible(records[0].record, records[1].record, s.plan)
    && s.analyses != []
    && forall n :: n in s.analyses ==> s.analyze(records[0], records[1], n).Measures?
  }

  /** The analyses of a pair, as the study reports them. */
  ghost predicate AnalysesOf(s: Setup, records: seq<Entry>, compatible: bool, outcomes: seq<Analysis>)
    requires |records| == 2
  {
    AnalysesFit(s.analyses, s.versions, n => s.analyze(records[0], records[1], n), compatible, outcomes)
  }

  lemma {:induction false} DoneMeansMeasured(
      names: seq<string>, versions: map<string, string>, reply: string -> AnalyzerReply, outcomes: seq<Analysis>)
    requires forall n :: n in names ==> n in versions
    requires AnalysesFit(names, versions, reply, true, outcomes)
    ensures AllDone(outcomes) <==> names != [] && forall n :: n in names ==> reply(n).Measures?
  {
    forall k | 0 <= k < |names| ensures outcomes[k].status == Done <==> reply(names[k]).Measures? {
      assert names[k] in names;
    }
  }

  lemma {:induction false} SameReplies(
      names: seq<string>, versions: map<string, string>, f: string -> AnalyzerReply, g: string -> AnalyzerReply,
      compatible: bool, outcomes: seq<Analysis>)
    requires forall n :: f(n) == g(n)
    ensures AnalysesFit(names, versions, f, compatible, outcomes) <==>
      AnalysesFit(names, versions, g, compatible, outcomes)
  {}

  lemma {:induction false} CheckedReply(s: Setup, p: Profile, l: Entry, r: Entry, n: string)
    ensures Checked(s, p).analyze(l, r, n) == if p.gaps(l) || p.gaps(r) then AnalyzerRaises else s.analyze(l, r, n)
  {}

  lemma {:induction false} CompleteAnalysesUnchecked(
      s: Setup, p: Profile, records: seq<Entry>, compatible: bool, outcomes: seq<Analysis>)
    requires |records| == 2 && Complete(p, records)
    ensures AnalysesOf(Checked(s, p), records, compatible, outcomes) <==> AnalysesOf(s, records, compatible, outcomes)
  {
    assert !p.gaps(records[0]) && !p.gaps(records[1]);
    var f, g := n => Checked(s, p).analyze(records[0], records[1], n), n => s.analyze(records[0], records[1], n);
    forall n ensures f(n) == g(n) {
      CheckedReply(s, p, records[0], records[1], n);
    }
    SameReplies(s.analyses, s.versions, f, g, compatible, outcomes);
  }

  lemma {:induction false} VerifiedIsSound(
      s: Setup, p: Profile, records: seq<Entry>, compatible: bool, outcomes: seq<Analysis>)
    requires s.Validated() && |records| == 2 == |s.runs| && RunsHold(s, records)
    requires compatible <==> Compatible(records[0].record, records[1].record, s.plan)
    requires AnalysesOf(Checked(s, p), records, compatible, outcomes)
    ensures Sound(s, p, records) <==> Complete(p, records) && compatible && AllDone(outcomes)
  {
    if Complete(p, records) && compatible {
      CompleteAnalysesUnchecked(s, p, records, compatible, outcomes);
      DoneMeansMeasured(s.analyses, s.versions, n => s.analyze(records[0], records[1], n), outcomes);
    }
  }

  function PolicyVerdict(d: Decision): Verdict {
    match d case Pass => PolicyPass case Fail => PolicyFail case _ => Insufficient
  }

  /** The policy speaks only about a verified comparison. */
  ghost predicate VerdictFits(p: Profile, gate: Verdict, verdict: Verdict, outcomes: seq<Analysis>) {
    if gate != Verified || p.policy.None? then verdict == gate
    else exists d :: DecisionFits(p.targets, p.policy.value, outcomes, true, d) && verdict == PolicyVerdict(d)
  }

  /** The two records may be compared under the plan. */
  ghost predicate Agree(s: Setup, records: seq<Entry>)
    requires |records| == 2
  {
    Compatible(records[0].record, records[1].record, s.plan)
  }

  /** What the verifier reports about the records it retained; insufficient evidence is what no other gate describes. */
  ghost predicate ManifestFits(s: Setup, p: Profile, m: Manifest, interrupted: bool, outcomes: seq<Analysis>) {
    && |m.records| == 2 == |s.runs|
    && m.gate in {Verified, NotComparable, Insufficient, ExecutionFailed}
    && (m.exitCode == if interrupted then INTERRUPT_CODE else ExitCode(m.verdict))
    && (interrupted ==> m.gate == ExecutionFailed)
    && (m.gate == Verified <==> !interrupted && Sound(s, p, m.records) && Readable(p, outcomes))
    && (m.gate == NotComparable <==> !interrupted && Complete(p, m.records) && !Agree(s, m.records))
    && (m.gate == ExecutionFailed <==>
          || interrupted || SomeFailed(m.records)
          || (Complete(p, m.records) && Agree(s, m.records) && !AllDone(outcomes)))
    && (!interrupted ==> AnalysesOf(Checked(s, p), m.records, Agree(s, m.records), outcomes))
    && VerdictFits(p, m.gate, m.verdict, outcomes)
    && (m.gate == Verified ==> AnalysesOf(s, m.records, true, outcomes))
    && (forall k :: 0 <= k < 2 ==> m.records[k].record.requested == s.runs[k])
  }

  /** PASS or FAIL: the comparison was verified, and every criterion was observed exactly and completely. */
  lemma {:induction false} PolicyVerdictIsGrounded(
      s: Setup, p: Profile, m: Manifest, interrupted: bool, outcomes: seq<Analysis>)
    requires ManifestFits(s, p, m, interrupted, outcomes) && m.verdict in {PolicyPass, PolicyFail}
    ensures Sound(s, p, m.records) && p.policy.Some?
    ensures forall c :: c in p.policy.value ==> c.target in p.targets && Grounded(p.targets[c.target], outcomes)
    ensures m.verdict == PolicyPass <==> AllMet(p.targets, p.policy.value, outcomes)
  {
    var d :| DecisionFits(p.targets, p.policy.value, outcomes, true, d) && m.verdict == PolicyVerdict(d);
    DecisionIsGrounded(p.targets, p.policy.value, outcomes, true, d);
  }

  method Conclude(p: Profile, gate: Verdict, outcomes: seq<Analysis>) returns (verdict: Verdict)
    requires p.Valid() && gate in {Verified, NotComparable, Insufficient, ExecutionFailed}
    ensures VerdictFits(p, gate, verdict, outcomes)
  {
    verdict := gate;
    if p.policy.Some? {
      var decision, _ := EvaluatePolicy(p.targets, p.policy.value, outcomes, gate == Verified);
      match decision {
        case NotEvaluated =>
        case Pass => verdict := PolicyPass;
        case Fail => verdict := PolicyFail;
        case InsufficientEvidence => verdict := Insufficient;
      }
    }
  }

  lemma {:induction false} Fits(s: Setup, p: Profile, m: Manifest, compatible: bool, outcomes: seq<Analysis>)
    requires s.Validated() && |m.records| == 2 == |s.runs| && RunsHold(s, m.records)
    requires compatible <==> Compatible(m.records[0].record, m.records[1].record, s.plan)
    requires AnalysesOf(Checked(s, p), m.records, compatible, outcomes)
    requires m.gate in {Verified, NotComparable, Insufficient, ExecutionFailed} && m.exitCode == ExitCode(m.verdict)
    requires m.gate == Verified <==>
      Complete(p, m.records) && compatible && AllDone(outcomes) && Readable(p, outcomes)
    requires m.gate == NotComparable <==> Complete(p, m.records) && !compatible
    requires m.gate == ExecutionFailed <==>
      SomeFailed(m.records) || (Complete(p, m.records) && compatible && !AllDone(outcomes))
    requires VerdictFits(p, m.gate, m.verdict, outcomes)
    ensures ManifestFits(s, p, m, false, outcomes)
  {
    VerifiedIsSound(s, p, m.records, compatible, outcomes);
    if m.gate == Verified { CompleteAnalysesUnchecked(s, p, m.records, compatible, outcomes); }
    assert forall k :: 0 <= k < 2 ==> RunHolds(s, k, m.records[k]);
  }

  lemma {:induction false} PlaceholdersFit(s: Setup, p: Profile, m: Manifest, saved: seq<Entry>)
    requires |s.runs| == 2 && RunsHold(s, saved) && m.records == WithPlaceholders(s, saved)
    requires m.gate == ExecutionFailed == m.verdict && m.exitCode == INTERRUPT_CODE
    ensures ManifestFits(s, p, m, true, [])
  {
    forall k | 0 <= k < 2 ensures m.records[k].record.requested == s.runs[k] {
      if k < |saved| {
        assert m.records[k] == m.records[..|saved|][k];
        assert RunHolds(s, k, saved[k]);
      }
    }
  }

  lemma {:induction false} NextPlaceholder(s: Setup, saved: seq<Entry>, k: nat)
    requires |saved| <= k < |s.runs|
    ensures
      var status := if k == |saved| then RunStatus.Interrupted else Cancelled;
      WithPlaceholders(s, saved)[..k + 1] == WithPlaceholders(s, saved)[..k] + [Placeholder(s, k, status)]
  {
    var all := WithPlaceholders(s, saved);
    assert all[..k + 1] == all[..k] + [all[k]];
  }

  /** Storing the placeholders after an interrupt; `late` tells whether storing one raises. */
  method StorePlaceholders(s: Setup, saved: seq<Entry>, late: nat -> bool) returns (all: Option<seq<Entry>>)
    requires |saved| <= |s.runs|
    ensures all.Some? ==> all.value == WithPlaceholders(s, saved)
    ensures all.None? <==> exists k :: |saved| <= k < |s.runs| && late(k)
  {
    var records := saved;
    var first := |saved|;
    for k := first to |s.runs|
      invariant records == WithPlaceholders(s, saved)[..k]
      invariant forall i :: first <= i < k ==> !late(i)
    {
      if late(k) { return None; }
      NextPlaceholder(s, saved, k);
      records := records + [Placeholder(s, k, if k == first then RunStatus.Interrupted else Cancelled)];
    }
    return Some(records);
  }

  lemma {:induction false} OnlyPair(s: Setup, records: seq<Entry>, pairs: seq<Pair>)
    requires |records| == 2 && PairsHold(s, records, pairs) && |pairs| == |Pairs(2)|
    ensures |pairs| == 1 && PairHolds(s, records, (0, 1), pairs[0])
  {
    PairsFromCount(0, 2);
    PairsFromMembers(0, 2, Pairs(2)[0]);
  }

  lemma {:induction false} OnlyInterruptedPair(s: Setup, records: seq<Entry>)
    requires |records| == 2 && exists p :: AnalysisInterrupts(s, records, p)
    ensures AnalysisInterrupts(s, records, (0, 1))
  {
    var p :| AnalysisInterrupts(s, records, p);
    assert p == (0, 1);
  }

  /** The study ran to its end. */
  method Judge(s: Setup, p: Profile, records: seq<Entry>, pair: Pair)
    returns (m: Manifest, outcomes: seq<Analysis>)
    requires s.Validated() && |records| == 2 == |s.runs| && p.Valid() && RunsHold(s, records)
    requires PairHolds(Checked(s, p), records, (0, 1), pair)
    ensures ManifestFits(s, p, m, false, outcomes) && m.records == records
  {
    var gate := Gate(p, false, records, pair.report.compatible, pair.analyses);
    var verdict := Conclude(p, gate, pair.analyses);
    m, outcomes := Manifest(gate, verdict, ExitCode(verdict), records), pair.analyses;
    Fits(s, p, m, pair.report.compatible, pair.analyses);
  }

  /** An interrupt reached the study: the missing records become placeholders. */
  method JudgeInterrupted(s: Setup, p: Profile, saved: seq<Entry>, late: nat -> bool) returns (m: Option<Manifest>)
    requires |s.runs| == 2 && RunsHold(s, saved)
    ensures m.None? <==> exists k :: |saved| <= k < 2 && late(k)
    ensures m.Some? ==> ManifestFits(s, p, m.value, true, []) && m.value.records == WithPlaceholders(s, saved)
  {
    var all := StorePlaceholders(s, saved, late);
    if all.None? { return None; }
    var gate := Gate(p, true, all.value, false, []);
    m := Some(Manifest(gate, gate, INTERRUPT_CODE, all.value));
    PlaceholdersFit(s, p, m.value, saved);
  }

  /**
   * One verification of two runs.  Without a manifest an exception travelled on: the first run that is not saved
   * raised, or could not be stored, or storing a placeholder did.
   */
  method VerifyWithProfile(s: Setup, p: Profile, late: nat -> bool)
    returns (m: Option<Manifest>, interrupted: bool, outcomes: seq<Analysis>, saved: seq<Entry>)
    requires s.Validated() && |s.runs| == 2 && p.Valid()
    ensures RunsHold(s, saved)
    ensures m.Some? ==> ManifestFits(s, p, m.value, interrupted, outcomes)
    ensures m.Some? ==> m.value.records == WithPlaceholders(s, saved)
    ensures |saved| < 2 ==> RunEnds(s, |saved|, interrupted)
    ensures |saved| == 2 && interrupted ==> AnalysisInterrupts(Checked(s, p), saved, (0, 1))
    ensures m.None? <==> (|saved| < 2 && !interrupted) || (interrupted && exists k :: |saved| <= k < 2 && late(k))
  {
    var outcome, stored := ExecuteStudy(Checked(s, p));
    interrupted, outcomes, saved := outcome.WasInterrupted?, [], stored;
    if |stored| == 2 && interrupted { OnlyInterruptedPair(Checked(s, p), stored); }
    match outcome {
      case Raised => m := None;
      case WasInterrupted => m := JudgeInterrupted(s, p, stored, late);
      case Finished(records, pairs) =>
        OnlyPair(Checked(s, p), stored, pairs);
        var manifest;
        manifest, outcomes := Judge(s, p, stored, pairs[0]);
        m := Some(manifest);
    }
  }
}
