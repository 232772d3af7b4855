/** `execute_run`: one run's lifecycle, over every way in which its collaborators may answer or raise. */
module Execution {
  import opened Records
  import opened Wrappers

  /** The calls of a run, in lifecycle order. */
  datatype Step = Requirements | Inspection | Probe | CaptureProbe | Resolve | Launch | Execute | Observe | Close

  /**
   * How a call ends.  A refusal is an ordinary return whose content stops the run: a blocking capability
   * or a support level other than supported.  An interrupt is not caught by the exception handlers.
   */
  datatype Answer = Fine | Refuses | TimesOut | Fails | IsInterrupted

  datatype Event = Supported | Done(step: Step) | Error(step: Step) | Blocked(step: Step) | NotRequested

  /** What a run leaves behind: a record's status, or an exception that travels on. */
  datatype Outcome = Recorded(status: RunStatus) | Propagates

  ghost predicate Returns(a: Answer) { a.Fine? || a.Refuses? }

  ghost predicate Raises(a: Answer) { a.TimesOut? || a.Fails? }

  ghost function Rank(s: Step): nat {
    match s
    case Requirements => 0 case Inspection => 1 case Probe => 2 case CaptureProbe => 3 case Resolve => 4
    case Launch => 5 case Execute => 6 case Observe => 7 case Close => 8
  }

  /** The calls a run makes, given how each of them would end. */
  ghost predicate Reached(requested: bool, answer: Step -> Answer, s: Step)
    decreases Rank(s)
  {
    match s
    case Requirements => requested
    case Inspection => Reached(requested, answer, Requirements) && Returns(answer(Requirements))
    case Probe => Reached(requested, answer, Inspection) && answer(Inspection).Fine?
    case CaptureProbe => Reached(requested, answer, Probe) && answer(Probe).Fine?
    case Resolve => Reached(requested, answer, CaptureProbe) && answer(CaptureProbe).Fine?
    case Launch => Reached(requested, answer, Resolve) && Returns(answer(Resolve))
    case Execute => Reached(requested, answer, Launch) && Returns(answer(Launch))
    case Observe => Reached(requested, answer, Execute) && !answer(Execute).IsInterrupted?
    case Close => Reached(requested, answer, Execute)
  }

  /** Calls happen in lifecycle order, none of them twice. */
  ghost predicate Rising(trace: seq<Step>) {
    forall i, j :: 0 <= i < j < |trace| ==> Rank(trace[i]) < Rank(trace[j])
  }

  ghost predicate IsProblem(e: Event) { e.Error? || e.Blocked? || e.NotRequested? }

  ghost predicate HasProblem(events: seq<Event>) {
    exists e :: e in events && IsProblem(e)
  }

  function Logged(log: seq<Event>, e: Event): (events: seq<Event>)
    ensures HasProblem(events) <==> HasProblem(log) || IsProblem(e)
  {
    assert forall f :: f in log + [e] <==> f in log || f == e;
    log + [e]
  }

  /** Some call that was made was interrupted. */
  ghost predicate Interrupted(answer: Step -> Answer, trace: seq<Step>) {
    exists s :: s in trace && answer(s).IsInterrupted?
  }

  /** The measurement's fate comes first, whatever observation and close do afterwards. */
  ghost predicate StatusFits(answer: Step -> Answer, trace: seq<Step>, status: RunStatus) {
    && (status == PreflightFailed <==> Launch !in trace)
    && (status == Completed <==>
        Execute in trace && Returns(answer(Execute)) && Returns(answer(Observe)) && Returns(answer(Close)))
    && (status == TimedOut <==> Execute in trace && answer(Execute).TimesOut?)
    && (status == Failed <==>
        || (Launch in trace && Raises(answer(Launch)))
        || (Execute in trace && answer(Execute).Fails?))
    && (status == Partial <==>
        Execute in trace && Returns(answer(Execute)) && (Raises(answer(Observe)) || Raises(answer(Close))))
  }

  /** Exactly the reached calls were made, each once, in lifecycle order. */
  ghost predicate CallsFit(requested: bool, answer: Step -> Answer, trace: seq<Step>) {
    Rising(trace) && forall s :: s in trace <==> Reached(requested, answer, s)
  }

  /** What the lifecycle promises about its calls, its record and its events. */
  ghost predicate Lifecycle(requested: bool, answer: Step -> Answer, trace: seq<Step>, outcome: Outcome) {
    && CallsFit(requested, answer, trace)
    && (outcome.Propagates? <==> Interrupted(answer, trace))
    && (outcome.Recorded? ==> StatusFits(answer, trace, outcome.status))
  }

  ghost function Previous(s: Step): (p: Step)
    requires s != Requirements
    ensures Rank(p) == Rank(s) - 1
  {
    match s
    case Inspection => Requirements case Probe => Inspection case CaptureProbe => Probe case Resolve => CaptureProbe
    case Launch => Resolve case Execute => Launch case Observe => Execute case Close => Observe
  }

  /** The calls up to and including `s`, once each and in order. */
  ghost predicate AllUpto(trace: seq<Step>, s: Step) {
    Rising(trace) && forall t :: t in trace <==> Rank(t) <= Rank(s)
  }

  lemma {:induction false} Next(trace: seq<Step>, s: Step)
    requires if s == Requirements then trace == [] else AllUpto(trace, Previous(s))
    ensures AllUpto(trace + [s], s)
  {
    assert forall t :: t in trace + [s] <==> t in trace || t == s;
    assert forall t :: Rank(t) == Rank(s) ==> t == s;
    forall i, j | 0 <= i < j < |trace + [s]| ensures Rank((trace + [s])[i]) < Rank((trace + [s])[j]) {
      assert trace[i] in trace;
    }
  }

  /** The run goes on after a check that allows it. */
  ghost predicate Allows(answer: Step -> Answer, s: Step) {
    if s == Requirements || s == Resolve || s == Launch then Returns(answer(s)) else answer(s).Fine?
  }

  lemma {:induction false} ReachedBefore(requested: bool, answer: Step -> Answer, s: Step, t: Step)
    requires Rank(t) <= Rank(s) <= 6 && Reached(requested, answer, s)
    ensures Reached(requested, answer, t)
    decreases Rank(s)
  {
    if s != t {
      ReachedBefore(requested, answer, Previous(s), t);
    }
  }

  lemma {:induction false} NothingAfter(requested: bool, answer: Step -> Answer, s: Step, t: Step)
    requires Rank(s) <= 5 && Rank(s) < Rank(t) && !Allows(answer, s)
    ensures !Reached(requested, answer, t)
    decreases Rank(t)
  {
    if Rank(t) == Rank(s) + 1 {
    } else if t == Close {
      NothingAfter(requested, answer, s, Execute);
    } else {
      NothingAfter(requested, answer, s, Previous(t));
    }
  }

  lemma {:induction false} ReachedMeansAllowed(requested: bool, answer: Step -> Answer, s: Step, t: Step)
    requires Rank(t) < Rank(s) <= 6 && Reached(requested, answer, s)
    ensures Allows(answer, t)
  {
    if !Allows(answer, t) { NothingAfter(requested, answer, t, s); }
  }

  /** A call that does not let the run go on is the last one, and nothing before it was interrupted. */
  lemma {:induction false} LastCall(requested: bool, answer: Step -> Answer, s: Step, trace: seq<Step>)
    requires Rank(s) <= 5 && Reached(requested, answer, s) && !Allows(answer, s) && AllUpto(trace, s)
    ensures CallsFit(requested, answer, trace)
    ensures Interrupted(answer, trace) <==> answer(s).IsInterrupted?
  {
    forall t ensures t in trace <==> Reached(requested, answer, t) {
      if Rank(t) <= Rank(s) { ReachedBefore(requested, answer, s, t); } else { NothingAfter(requested, answer, s, t); }
    }
    forall t | t in trace && t != s ensures !answer(t).IsInterrupted? {
      assert Rank(t) != Rank(s);
      ReachedMeansAllowed(requested, answer, s, t);
    }
    assert s in trace;
  }

  /** The run whose last call is `step`, which did not let it go on. */
  ghost function StopOutcome(answer: Step -> Answer, step: Step): Outcome {
    if answer(step).IsInterrupted? then Propagates
    else Recorded(if step == Launch then Failed else PreflightFailed)
  }

  lemma {:induction false} StoppedStatus(answer: Step -> Answer, step: Step, trace: seq<Step>)
    requires Rank(step) <= 5 && !Allows(answer, step) && !answer(step).IsInterrupted?
    requires forall t :: t in trace <==> Rank(t) <= Rank(step)
    ensures StatusFits(answer, trace, if step == Launch then Failed else PreflightFailed)
  {}

  lemma {:induction false} StoppedLifecycle(requested: bool, answer: Step -> Answer, step: Step, trace: seq<Step>)
    requires Rank(step) <= 5 && Reached(requested, answer, step) && !Allows(answer, step) && AllUpto(trace, step)
    ensures Lifecycle(requested, answer, trace, StopOutcome(answer, step))
  {
    LastCall(requested, answer, step, trace);
    if !answer(step).IsInterrupted? { StoppedStatus(answer, step, trace); }
    Together(requested, answer, trace, StopOutcome(answer, step));
  }

  lemma {:induction false} Together(requested: bool, answer: Step -> Answer, trace: seq<Step>, outcome: Outcome)
    requires CallsFit(requested, answer, trace)
    requires outcome.Propagates? <==> Interrupted(answer, trace)
    requires outcome.Recorded? ==> StatusFits(answer, trace, outcome.status)
    ensures Lifecycle(requested, answer, trace, outcome)
  {}

  method StopAt(answer: Step -> Answer, step: Step, log: seq<Event>) returns (outcome: Outcome, events: seq<Event>)
    requires Rank(step) <= 5 && !Allows(answer, step)
    ensures outcome == StopOutcome(answer, step)
    ensures outcome.Recorded? ==> HasProblem(events)
  {
    match answer(step) {
      case IsInterrupted => return Propagates, log;
      case Refuses => events := Logged(log, Blocked(step));
      case _ => events := Logged(log, Error(step));
    }
    outcome := Recorded(if step == Launch then Failed else PreflightFailed);
  }

  lemma {:induction false} NothingRequested(answer: Step -> Answer)
    ensures Lifecycle(false, answer, [], Recorded(PreflightFailed))
  {
    forall s ensures !Reached(false, answer, s) {
      if Reached(false, answer, s) {
        ReachedBefore(false, answer, if s.Observe? || s.Close? then Execute else s, Requirements);
      }
    }
  }

  /** One check whose answer has to let the run go on. */
  method Check(requested: bool, answer: Step -> Answer, step: Step, before: seq<Step>)
    returns (stop: bool, outcome: Outcome, trace: seq<Step>, events: seq<Event>)
    requires step in {Inspection, Probe, CaptureProbe} && Reached(requested, answer, step)
    requires AllUpto(before, Previous(step))
    ensures AllUpto(trace, step) && (stop <==> !answer(step).Fine?)
    ensures stop ==> Lifecycle(requested, answer, trace, outcome)
    ensures stop && outcome.Recorded? ==> HasProblem(events)
  {
    Next(before, step);
    trace := before + [step];
    if !answer(step).Fine? {
      outcome, events := StopAt(answer, step, []);
      StoppedLifecycle(requested, answer, step, trace);
      return true, outcome, trace, events;
    }
    return false, Propagates, trace, [];
  }

  /** The checks before `resolve`; `stop` when one of them ends the run. */
  method Preflight(requested: bool, answer: Step -> Answer)
    returns (stop: bool, outcome: Outcome, trace: seq<Step>, events: seq<Event>)
    ensures stop <==> !Reached(requested, answer, Resolve)
    ensures stop ==> Lifecycle(requested, answer, trace, outcome)
    ensures stop && outcome.Recorded? ==> HasProblem(events)
    ensures !stop ==> AllUpto(trace, CaptureProbe) && !HasProblem(events)
  {
    if !requested {
      NothingRequested(answer);
      assert IsProblem(NotRequested);
      return true, Recorded(PreflightFailed), [], [NotRequested];
    }
    Next([], Requirements);
    trace := [] + [Requirements];
    if !answer(Requirements).Fine? && !answer(Requirements).Refuses? {
      outcome, events := StopAt(answer, Requirements, []);
      StoppedLifecycle(requested, answer, Requirements, trace);
      return true, outcome, trace, events;
    }
    stop, outcome, trace, events := Check(requested, answer, Inspection, trace);
    if stop { return; }
    stop, outcome, trace, events := Check(requested, answer, Probe, trace);
    if stop { return; }
    stop, outcome, trace, events := Check(requested, answer, CaptureProbe, trace);
    if stop { return; }
    assert !IsProblem(Supported);
    return false, Propagates, trace, [Supported];
  }

  /** Measurement, observation, and the `finally` that closes the session whatever happened before. */
  method Session(answer: Step -> Answer, log: seq<Event>)
    returns (outcome: Outcome, trace: seq<Step>, events: seq<Event>)
    requires !HasProblem(log)
    ensures trace == SessionTrace(answer)
    ensures outcome.Propagates? <==>
      answer(Execute).IsInterrupted? || answer(Observe).IsInterrupted? || answer(Close).IsInterrupted?
    ensures outcome.Recorded? ==> outcome.status == SessionStatus(answer)
    ensures outcome.Recorded? ==> (HasProblem(events) <==> outcome.status != Completed)
  {
    trace, events := [Execute], log;
    var failure: Option<RunStatus>, interrupted, measured, observed := None, false, false, false;
    match answer(Execute) {
      case TimesOut => failure, events := Some(TimedOut), Logged(events, Error(Execute));
      case Fails => failure, events := Some(Failed), Logged(events, Error(Execute));
      case IsInterrupted => interrupted := true;
      case _ => measured, events := true, Logged(events, Done(Execute));
    }
    if !interrupted {
      trace := trace + [Observe];
      match answer(Observe) {
        case IsInterrupted => interrupted := true;
        case TimesOut | Fails =>
          events := Logged(events, Error(Observe));
          if failure.None? { failure := Some(Partial); }
        case _ => observed, events := true, Logged(events, Done(Observe));
      }
    }
    trace := trace + [Close];
    match answer(Close) {
      case IsInterrupted => interrupted := true;
      case TimesOut | Fails =>
        events := Logged(events, Error(Close));
        if failure.None? { failure := Some(Partial); }
      case _ => events := Logged(events, Done(Close));
    }
    if interrupted { return Propagates, trace, events; }
    var status;
    if failure.Some? {
      status := failure.value;
    } else if measured && observed {
      status := Completed;
    } else {
      assert false;  // the last branch of the source is unreachable
      status := Partial;
    }
    return Recorded(status), trace, events;
  }

  ghost function SessionTrace(answer: Step -> Answer): seq<Step> {
    if answer(Execute).IsInterrupted? then [Execute, Close] else [Execute, Observe, Close]
  }

  ghost function SessionStatus(answer: Step -> Answer): RunStatus {
    if answer(Execute).TimesOut? then TimedOut
    else if answer(Execute).Fails? then Failed
    else if Returns(answer(Observe)) && Returns(answer(Close)) then Completed
    else Partial
  }

  lemma {:induction false} CallsBeforeSession(requested: bool, answer: Step -> Answer, s: Step)
    requires Reached(requested, answer, Execute) && Rank(s) <= 5
    ensures Reached(requested, answer, s) && !answer(s).IsInterrupted?
  {
    ReachedBefore(requested, answer, Execute, s);
    ReachedMeansAllowed(requested, answer, Execute, s);
  }

  lemma {:induction false} CallsOfSession(requested: bool, answer: Step -> Answer, s: Step)
    requires Reached(requested, answer, Execute) && Rank(s) > 5
    ensures s in SessionTrace(answer) <==> Reached(requested, answer, s)
  {
    match s
    case Execute => assert SessionTrace(answer)[0] == Execute;
    case Observe => assert !answer(Execute).IsInterrupted? ==> SessionTrace(answer)[1] == Observe;
    case Close => assert SessionTrace(answer)[|SessionTrace(answer)| - 1] == Close;
  }

  lemma {:induction false} RisingJoins(a: seq<Step>, b: seq<Step>)
    requires Rising(a) && Rising(b)
    requires forall s, t :: s in a && t in b ==> Rank(s) < Rank(t)
    ensures Rising(a + b)
  {
    forall i, j | 0 <= i < j < |a + b| ensures Rank((a + b)[i]) < Rank((a + b)[j]) {
      if i < |a| && j >= |a| {
        assert (a + b)[i] in a && (a + b)[j] in b;
      }
    }
  }

  lemma {:induction false} SessionStatusFits(answer: Step -> Answer, trace: seq<Step>)
    requires Launch in trace && Execute in trace && Returns(answer(Launch))
    requires !answer(Execute).IsInterrupted? && !answer(Observe).IsInterrupted? && !answer(Close).IsInterrupted?
    ensures StatusFits(answer, trace, SessionStatus(answer))
  {}

  lemma {:induction false} SessionCalls(requested: bool, answer: Step -> Answer, before: seq<Step>, session: seq<Step>)
    requires Reached(requested, answer, Execute) && AllUpto(before, Launch) && session == SessionTrace(answer)
    ensures CallsFit(requested, answer, before + session)
  {
    assert forall s :: s in session ==> s in {Execute, Observe, Close} && Rank(s) > 5;
    RisingJoins(before, session);
    forall s ensures s in before + session <==> Reached(requested, answer, s) {
      if Rank(s) <= 5 { CallsBeforeSession(requested, answer, s); } else { CallsOfSession(requested, answer, s); }
    }
  }

  lemma {:induction false} SessionInterrupts(
      requested: bool, answer: Step -> Answer, before: seq<Step>, session: seq<Step>)
    requires Reached(requested, answer, Execute) && AllUpto(before, Launch) && session == SessionTrace(answer)
    ensures Interrupted(answer, before + session) <==>
      answer(Execute).IsInterrupted? || answer(Observe).IsInterrupted? || answer(Close).IsInterrupted?
  {
    CallsOfSession(requested, answer, Execute);
    CallsOfSession(requested, answer, Close);
    CallsOfSession(requested, answer, Observe);
    forall s | s in before ensures !answer(s).IsInterrupted? { CallsBeforeSession(requested, answer, s); }
    assert forall s :: s in before + session <==> s in before || s in session;
    assert forall s :: s in session ==> s in {Execute, Observe, Close};
  }

  /** A launched session: what the whole run's lifecycle owes to its last part. */
  lemma {:induction false} SessionLifecycle(
      requested: bool, answer: Step -> Answer, before: seq<Step>, session: seq<Step>, outcome: Outcome)
    requires Reached(requested, answer, Execute) && AllUpto(before, Launch) && session == SessionTrace(answer)
    requires outcome.Propagates? <==>
      answer(Execute).IsInterrupted? || answer(Observe).IsInterrupted? || answer(Close).IsInterrupted?
    requires outcome.Recorded? ==> outcome.status == SessionStatus(answer)
    ensures Lifecycle(requested, answer, before + session, outcome)
  {
    SessionCalls(requested, answer, before, session);
    SessionInterrupts(requested, answer, before, session);
    if outcome.Recorded? {
      assert Launch in before && session[0] == Execute;
      SessionStatusFits(answer, before + session);
    }
    Together(requested, answer, before + session, outcome);
  }

  /** `resolve` and `launch`; `stop` when one of them ends the run. */
  method Launching(requested: bool, answer: Step -> Answer, before: seq<Step>, log: seq<Event>)
    returns (stop: bool, outcome: Outcome, trace: seq<Step>, events: seq<Event>)
    requires AllUpto(before, CaptureProbe) && Reached(requested, answer, Resolve) && !HasProblem(log)
    ensures stop <==> !Reached(requested, answer, Execute)
    ensures stop ==> Lifecycle(requested, answer, trace, outcome)
    ensures stop && outcome.Recorded? ==> HasProblem(events) && outcome.status != Completed
    ensures !stop ==> AllUpto(trace, Launch) && !HasProblem(events)
  {
    Next(before, Resolve);
    trace := before + [Resolve];
    if !answer(Resolve).Fine? && !answer(Resolve).Refuses? {
      outcome, events := StopAt(answer, Resolve, log);
      StoppedLifecycle(requested, answer, Resolve, trace);
      return true, outcome, trace, events;
    }
    Next(trace, Launch);
    trace := trace + [Launch];
    if !answer(Launch).Fine? && !answer(Launch).Refuses? {
      outcome, events := StopAt(answer, Launch, log);
      StoppedLifecycle(requested, answer, Launch, trace);
      return true, outcome, trace, events;
    }
    return false, Propagates, trace, Logged(log, Done(Launch));
  }

  /** One run, from the first check to the closed session. */
  method ExecuteRun(requested: bool, answer: Step -> Answer)
    returns (outcome: Outcome, trace: seq<Step>, events: seq<Event>)
    ensures Lifecycle(requested, answer, trace, outcome)
    ensures outcome.Recorded? ==> (HasProblem(events) <==> outcome.status != Completed)
  {
    var stop;
    stop, outcome, trace, events := Preflight(requested, answer);
    if stop { return; }
    stop, outcome, trace, events := Launching(requested, answer, trace, events);
    if stop { return; }
    var session;
    outcome, session, events := Session(answer, events);
    SessionLifecycle(requested, answer, trace, session, outcome);
    trace := trace + session;
  }

  // ----- what the lifecycle means -----

  lemma {:induction false} RisingOnce(trace: seq<Step>, s: Step)
    requires Rising(trace)
    ensures multiset(trace)[s] == if s in trace then 1 else 0
  {
    if trace != [] {
      var init, last := trace[..|trace| - 1], trace[|trace| - 1];
      assert trace == init + [last];
      RisingOnce(init, s);
      assert last in init ==> Rank(last) < Rank(last);
    }
  }

  /** A session that was launched is closed exactly once, on every path; without one there is no close. */
  lemma {:induction false} ClosedExactlyOnce(
      requested: bool, answer: Step -> Answer, trace: seq<Step>, outcome: Outcome)
    requires Lifecycle(requested, answer, trace, outcome)
    ensures multiset(trace)[Close] == if Launch in trace && Returns(answer(Launch)) then 1 else 0
    ensures Close in trace ==> trace[|trace| - 1] == Close
  {
    RisingOnce(trace, Close);
    if Close in trace {
      var last := |trace| - 1;
      assert Rank(trace[last]) <= Rank(Close);
    }
  }

  lemma {:induction false} SameCallsSameTrace(a: seq<Step>, b: seq<Step>)
    requires Rising(a) && Rising(b)
    requires forall s :: s in a <==> s in b
    ensures a == b
  {
    assert a != [] ==> a[0] in a;
    assert b != [] ==> b[0] in b;
    if a != [] {
      assert a[0] in b && b[0] in a;
      assert Rank(a[0]) == Rank(b[0]);
      forall s ensures s in a[1..] <==> s in b[1..] {
        assert s in a <==> s == a[0] || s in a[1..];
        assert s in b <==> s == b[0] || s in b[1..];
      }
      SameCallsSameTrace(a[1..], b[1..]);
    }
  }

  /** The promise leaves no freedom: the answers decide the calls, their order and the record's status. */
  lemma {:induction false} LifecycleIsDetermined(
      requested: bool, answer: Step -> Answer, a: seq<Step>, first: Outcome, b: seq<Step>, second: Outcome)
    requires Lifecycle(requested, answer, a, first) && Lifecycle(requested, answer, b, second)
    ensures a == b && first == second
  {
    SameCallsSameTrace(a, b);
    if first.Recorded? { StatusIsDetermined(answer, a, first.status, second.status); }
  }

  lemma {:induction false} StatusIsDetermined(answer: Step -> Answer, trace: seq<Step>, a: RunStatus, b: RunStatus)
    requires StatusFits(answer, trace, a) && StatusFits(answer, trace, b)
    requires Execute in trace ==> Launch in trace && Returns(answer(Launch))
    requires Execute in trace <== Launch in trace && Returns(answer(Launch))
    requires !Interrupted(answer, trace) && (Execute in trace ==> Observe in trace && Close in trace)
    ensures a == b
  {
    assert Launch in trace ==> !answer(Launch).IsInterrupted?;
    assert Execute in trace ==>
      !answer(Execute).IsInterrupted? && !answer(Observe).IsInterrupted? && !answer(Close).IsInterrupted?;
  }

  /** A completed run was measured, observed and closed, and nothing it did raised or refused. */
  lemma {:induction false} CompletedMeansEverythingReturned(
      requested: bool, answer: Step -> Answer, trace: seq<Step>, outcome: Outcome)
    requires Lifecycle(requested, answer, trace, outcome)
    ensures (outcome == Recorded(Completed)) <==>
      (Close in trace && forall s :: s in trace ==> Returns(answer(s)))
  {
    if outcome == Recorded(Completed) {
      forall s | s in trace ensures Returns(answer(s)) {
        if Rank(s) < 6 { ReachedMeansAllowed(requested, answer, Execute, s); }
      }
    }
    if Close in trace && forall s :: s in trace ==> Returns(answer(s)) {
      assert Execute in trace && Observe in trace;
    }
  }

  /** Launched, measured, observed, closed once, and no call raised or was interrupted. */
  ghost predicate MeasuredAndClosed(answer: Step -> Answer, trace: seq<Step>) {
    && Launch in trace && Execute in trace && Observe in trace && multiset(trace)[Close] == 1
    && forall s :: s in trace ==> Returns(answer(s))
  }

  lemma {:induction false} CompletedRunWasMeasured(requested: bool, answer: Step -> Answer, trace: seq<Step>)
    requires Lifecycle(requested, answer, trace, Recorded(Completed))
    ensures MeasuredAndClosed(answer, trace)
  {
    CompletedMeansEverythingReturned(requested, answer, trace, Recorded(Completed));
    ClosedExactlyOnce(requested, answer, trace, Recorded(Completed));
  }
}
