/** From the collaborators of two runs to the verdict: `execute_run` inside the study inside the verifier. */
module EndToEnd {
  import opened Wrappers
  import opened Records
  import opened Study
  import opened Policies
  import opened Verdicts
  import opened Receipts
  import Execution

  /** How every call of every run would end, and the evidence a run collects by the status it ends with. */
  datatype Live = Live(
    requested: nat -> bool, answer: nat -> (Execution.Step -> Execution.Answer), evidence: (nat, RunStatus) -> Entry)
  {
    /** A record is written with the status of its run. */
    ghost predicate Faithful() {
      forall k: nat, status :: evidence(k, status).record.status == status
    }
  }

  /** One run through `execute_run`, as the study sees it. */
  method Answer(live: Live, k: nat) returns (reply: Reply, trace: seq<Execution.Step>)
    requires live.Faithful()
    ensures reply.Gives? ==> RanAs(reply.entry, live.requested(k), live.answer(k), trace)
    ensures reply.Gives? || reply.Interrupts?
    ensures reply.Interrupts? <==> Execution.Interrupted(live.answer(k), trace)
    ensures Execution.CallsFit(live.requested(k), live.answer(k), trace)
  {
    var outcome, calls, _ := Execution.ExecuteRun(live.requested(k), live.answer(k));
    trace := calls;
    match outcome {
      case Propagates => reply := Interrupts;
      case Recorded(status) =>
        assert live.evidence(k, status).record.status == status;
        reply := Gives(live.evidence(k, status));
    }
  }

  /** The retained records are records of runs that went as their traces say. */
  ghost predicate RanTo(live: Live, saved: seq<Entry>, traces: seq<seq<Execution.Step>>) {
    && |saved| <= |traces|
    && forall k :: 0 <= k < |saved| ==> RanAs(saved[k], live.requested(k), live.answer(k), traces[k])
  }

  /** Two completed records without gaps that may be compared, and every analyzer of the study measured them. */
  ghost predicate SoundPair(s: Setup, p: Profile, saved: seq<Entry>) {
    && |saved| == 2 && Complete(p, saved) && Agree(s, saved)
    && s.analyses != [] && forall n :: n in s.analyses ==> s.analyze(saved[0], saved[1], n).Measures?
  }

  /** There is a policy, and each of its criteria was observed with exact identity and full coverage. */
  ghost predicate CriteriaGrounded(p: Profile, outcomes: seq<Analysis>) {
    && p.policy.Some?
    && forall c :: c in p.policy.value ==> c.target in p.targets && Grounded(p.targets[c.target], outcomes)
  }

  /** PASS exactly when all criteria are met, FAIL when some are not, and either only on complete observations. */
  ghost predicate PolicyJustifies(p: Profile, v: Verdict, outcomes: seq<Analysis>) {
    v in {PolicyPass, PolicyFail} ==>
      CriteriaGrounded(p, outcomes) && (v == PolicyPass <==> AllMet(p.targets, p.policy.value, outcomes))
  }

  /** Both sessions were launched, measured, observed and closed once, and nothing raised. */
  ghost predicate BothMeasured(live: Live, traces: seq<seq<Execution.Step>>) {
    |traces| >= 2 && forall k :: 0 <= k < 2 ==> Execution.MeasuredAndClosed(live.answer(k), traces[k])
  }

  /** Who executes the runs is no part of what makes a pair sound. */
  lemma {:induction false} SameSoundPair(s: Setup, t: Setup, p: Profile, saved: seq<Entry>)
    requires SoundPair(s, p, saved) && s.plan == t.plan && s.analyses == t.analyses && s.analyze == t.analyze
    ensures SoundPair(t, p, saved)
  {}

  lemma {:induction false} RepliesRanTo(
      s: Setup, live: Live, saved: seq<Entry>, traces: seq<seq<Execution.Step>>, first: Reply, second: Reply)
    requires |s.runs| == 2 == |traces| && RunsHold(s, saved) && s.reply(0) == first && s.reply(1) == second
    requires first.Gives? ==> RanAs(first.entry, live.requested(0), live.answer(0), traces[0])
    requires second.Gives? ==> RanAs(second.entry, live.requested(1), live.answer(1), traces[1])
    ensures RanTo(live, saved, traces)
  {
    forall k | 0 <= k < |saved| ensures RanAs(saved[k], live.requested(k), live.answer(k), traces[k]) {
      assert RunHolds(s, k, saved[k]);
    }
  }

  /** A conclusive verdict needs no placeholder. */
  lemma {:induction false} ConclusiveSaved(
      s: Setup, p: Profile, m: Manifest, interrupted: bool, outcomes: seq<Analysis>, saved: seq<Entry>)
    requires ManifestFits(s, p, m, interrupted, outcomes) && m.verdict in CONCLUSIVE
    requires RunsHold(s, saved) && m.records == WithPlaceholders(s, saved)
    ensures |saved| == 2 && m.records == saved
  {
    VerdictCodes(s, p, m, interrupted, outcomes);
    if |saved| < 2 { CompletedOfSound(s, p, m.records, |saved|); }
  }

  lemma {:induction false} ConclusiveLive(
      s: Setup, p: Profile, live: Live, m: Manifest, interrupted: bool, outcomes: seq<Analysis>, saved: seq<Entry>,
      traces: seq<seq<Execution.Step>>)
    requires ManifestFits(s, p, m, interrupted, outcomes) && m.verdict in CONCLUSIVE && RunsHold(s, saved)
    requires m.records == WithPlaceholders(s, saved) && RanTo(live, saved, traces)
    ensures m.records == saved && BothMeasured(live, traces) && SoundPair(s, p, saved)
    ensures PolicyJustifies(p, m.verdict, outcomes)
  {
    VerdictCodes(s, p, m, interrupted, outcomes);
    ConclusiveSaved(s, p, m, interrupted, outcomes, saved);
    forall k | 0 <= k < 2 ensures Execution.MeasuredAndClosed(live.answer(k), traces[k]) {
      ConclusiveMeansMeasured(s, p, m, interrupted, outcomes, k, live.requested(k), live.answer(k), traces[k]);
    }
    if m.verdict in {PolicyPass, PolicyFail} { PolicyVerdictIsGrounded(s, p, m, interrupted, outcomes); }
  }

  /**
   * One verification of two runs, each executed by `execute_run`. Runs share no state, so the answers of both are
   * worked out first; the study asks for the second only once the first is stored. A conclusive verdict means that
   * both sessions were launched, measured, observed and closed, and that the pair is sound.
   */
  method VerifyLive(s: Setup, p: Profile, live: Live, late: nat -> bool)
    returns (m: Option<Manifest>, interrupted: bool, outcomes: seq<Analysis>, saved: seq<Entry>,
      traces: seq<seq<Execution.Step>>)
    requires s.Validated() && |s.runs| == 2 && p.Valid() && live.Faithful()
    ensures |traces| == 2 && RanTo(live, saved, traces)
    ensures forall k :: 0 <= k < 2 ==> Execution.CallsFit(live.requested(k), live.answer(k), traces[k])
    ensures m.Some? && m.value.verdict in CONCLUSIVE ==>
      m.value.records == saved && BothMeasured(live, traces) && SoundPair(s, p, saved)
    ensures m.Some? && m.value.verdict in CONCLUSIVE ==> PolicyJustifies(p, m.value.verdict, outcomes)
  {
    var first, firstTrace := Answer(live, 0);
    var second, secondTrace := Answer(live, 1);
    traces := [firstTrace, secondTrace];
    var study := s.(reply := k => if k == 0 then first else second);
    m, interrupted, outcomes, saved := VerifyWithProfile(study, p, late);
    RepliesRanTo(study, live, saved, traces, first, second);
    if m.Some? && m.value.verdict in CONCLUSIVE {
      ConclusiveLive(study, p, live, m.value, interrupted, outcomes, saved, traces);
      SameSoundPair(study, s, p, saved);
    }
  }
}
