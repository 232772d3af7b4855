/** What every run of the process runner guarantees, read off the actions of the run, and runs that reach its exits. */
module ProcessRuns {
  import opened Wrappers
  import opened Processes

  ghost predicate Reachable(cfg: Config, st: State) {
    cfg.Ok() && exists actions :: Run(cfg, actions) == Some(st)
  }

  lemma {:induction false} ReachableInv(cfg: Config, st: State)
    requires Reachable(cfg, st)
    ensures Inv(cfg, st)
  {
    var actions :| Run(cfg, actions) == Some(st);
    RunKeepsInv(cfg, actions);
  }

  /** Before the stop flag is set, every byte read is handled, queued or held, in order, and the sentinel comes last. */
  lemma {:induction false} NoOutputLost(cfg: Config, st: State, s: Stream)
    requires Reachable(cfg, st) && !st.stop
    ensures
      var ch, sent := st.channels.At(s), st.channels.At(s).taken + ItemsFor(st.queue, s);
      && ch.read == Bytes(sent) + HeldBytes(ch.reader)
      && (ch.reader.Gone? <==> End in sent)
      && (forall i :: 0 <= i < |sent| - 1 ==> sent[i] != End)
  {
    ReachableInv(cfg, st);
  }

  // ----- a run, read off its actions -----

  /** The time that the turns of the loop have taken. */
  ghost function Elapsed(actions: seq<Action>): int {
    if actions == [] then 0
    else
      var last := actions[|actions| - 1];
      Elapsed(actions[..|actions| - 1]) + if last.Iterate? then last.elapsed else 0
  }

  /** What the pipe of a stream has delivered. */
  ghost function Delivered(actions: seq<Action>, s: Stream): seq<Byte> {
    if actions == [] then []
    else
      var last := actions[|actions| - 1];
      Delivered(actions[..|actions| - 1], s) + if last.ReaderReads? && last.s == s then last.data else []
  }

  /** At this turn the child has exited, or the time is up. */
  ghost predicate Due(cfg: Config, actions: seq<Action>, i: nat) {
    && i < |actions| && actions[i].Iterate?
    && (ChildExits in actions[..i] || Elapsed(actions[..i + 1]) >= cfg.timeout)
  }

  /** The first such turn. */
  ghost predicate EndsWait(cfg: Config, actions: seq<Action>, i: nat) {
    Due(cfg, actions, i) && forall j :: 0 <= j < i ==> !Due(cfg, actions, j)
  }

  /** The run's account of the end of the wait: why it ended, and the deadline it set. */
  ghost predicate Accounts(cfg: Config, actions: seq<Action>, m: Main, i: nat) {
    && EndsWait(cfg, actions, i)
    && (m.timedOut <==> ChildExits !in actions[..i])
    && m.deadline == cfg.started + Elapsed(actions[..i + 1]) + cfg.cleanup
  }

  /**
   * What one step tells about time: the clock moves in turns of the loop alone, and only a turn can end the wait, when
   * the child has exited or the time is up; it then says that the wait timed out exactly if the child still ran.
   */
  ghost predicate Judges(cfg: Config, m: Main, exited: bool, a: Action, n: Main, exitedNow: bool) {
    var due := a.Iterate? && (exited || n.now >= cfg.started + cfg.timeout);
    && (exitedNow <==> exited || a == ChildExits)
    && n.now == m.now + (if a.Iterate? then a.elapsed else 0)
    && (m.raised.Some? ==> n.raised.Some? && n.ended == m.ended)
    && (m.ended ==> n.ended && n.timedOut == m.timedOut && n.deadline == m.deadline)
    && (!m.ended && !due ==> !n.ended && n.timedOut == m.timedOut)
    && (!m.ended && due && a.kill.Some? ==> !n.ended && n.raised == a.kill)
    && (!m.ended && due && a.kill.None? ==> n.ended && n.deadline == n.now + cfg.cleanup && (n.timedOut <==> !exited))
  }

  lemma {:induction false} OwnStepJudges(
      cfg: Config, m: Main, exited: bool, queueEmpty: bool, allGone: bool, a: Action, n: Main)
    requires OwnStep(cfg, m, exited, queueEmpty, allGone, a) == Some(n) && OwnOk(cfg, m)
    ensures Judges(cfg, m, exited, a, n, exited)
  {
    if a.Iterate? { TurnJudges(cfg, m, exited, a.elapsed, a.kill, n); }
  }

  lemma {:induction false} TurnJudges(cfg: Config, m: Main, exited: bool, elapsed: int, kill: Option<Failure>, n: Main)
    requires TimeOk(cfg, m) && m.raised.None? && n == IterateMain(cfg, m, exited, elapsed, kill)
    ensures Judges(cfg, m, exited, Iterate(elapsed, kill), n, exited)
  {}

  lemma {:induction false} MainJudges(cfg: Config, st: State, a: Action, next: State)
    requires MainStep(cfg, st, a) == Some(next) && OwnOk(cfg, st.main) && !a.ChildExits?
    ensures next.exited == st.exited && Judges(cfg, st.main, st.exited, a, next.main, next.exited)
  {
    if !a.StartReader? && !a.Take? && !a.Stop? {
      OwnStepJudges(cfg, st.main, st.exited, st.queue == [],
                    Finished(st.channels.stdout) && Finished(st.channels.stderr), a, next.main);
    }
  }

  lemma {:induction false} ReadersLeaveMain(st: State, a: Action, next: State)
    requires IsReaderAction(a) && ReaderStep(st, a) == Some(next)
    ensures next.main == st.main && next.exited == st.exited
  {}

  lemma {:induction false} StepJudges(cfg: Config, st: State, a: Action, next: State)
    requires Apply(cfg, st, a) == Some(next) && OwnOk(cfg, st.main)
    ensures Judges(cfg, st.main, st.exited, a, next.main, next.exited)
  {
    if IsReaderAction(a) {
      ReadersLeaveMain(st, a, next);
    } else if !a.ChildExits? {
      var main := MainPart(cfg, st, a, next);
      MainJudges(cfg, st, a, main);
    }
  }

  /**
   * The account of a run: the clock, the child, and the wait. Until the wait ends or something is raised, no turn was
   * due; once it has ended, the first due turn ended it.
   */
  ghost predicate Told(cfg: Config, actions: seq<Action>, m: Main, exited: bool) {
    && (exited <==> ChildExits in actions)
    && m.now == cfg.started + Elapsed(actions)
    && (!m.ended && m.raised.None? ==> forall i :: 0 <= i < |actions| ==> !Due(cfg, actions, i))
    && (m.ended ==> exists i :: Accounts(cfg, actions, m, i))
  }

  lemma {:induction false} DueStays(cfg: Config, actions: seq<Action>, a: Action, more: seq<Action>, i: nat)
    requires more == actions + [a] && i < |actions|
    ensures (Due(cfg, more, i)) == Due(cfg, actions, i)
    ensures more[..i] == actions[..i] && more[..i + 1] == actions[..i + 1]
  {
    assert more[..i] == actions[..i] && more[..i + 1] == actions[..i + 1];
  }

  lemma {:induction false} OneMoreAction(actions: seq<Action>, a: Action, more: seq<Action>)
    requires more == actions + [a]
    ensures more[..|actions|] == actions && more[..|actions| + 1] == more && more[|actions|] == a
    ensures Elapsed(more) == Elapsed(actions) + if a.Iterate? then a.elapsed else 0
    ensures ChildExits in more <==> ChildExits in actions || a == ChildExits
  {
    assert more[..|actions|] == actions;
  }

  lemma {:induction false} ToldGrows(
      cfg: Config, actions: seq<Action>, a: Action, more: seq<Action>, m: Main, exited: bool, n: Main, exitedNow: bool)
    requires more == actions + [a] && Told(cfg, actions, m, exited) && Judges(cfg, m, exited, a, n, exitedNow)
    ensures Told(cfg, more, n, exitedNow)
  {
    OneMoreAction(actions, a, more);
    forall i | 0 <= i < |actions| ensures (Due(cfg, more, i)) == Due(cfg, actions, i) {
      DueStays(cfg, actions, a, more, i);
    }
    if m.ended {
      var i :| Accounts(cfg, actions, m, i);
      DueStays(cfg, actions, a, more, i);
      assert Accounts(cfg, more, n, i);
    } else if n.ended {
      assert Accounts(cfg, more, n, |actions|);
    }
  }

  lemma {:induction false} StepIsTold(
      cfg: Config, actions: seq<Action>, a: Action, more: seq<Action>, st: State, next: State)
    requires more == actions + [a] && Told(cfg, actions, st.main, st.exited)
    requires Apply(cfg, st, a) == Some(next) && OwnOk(cfg, st.main)
    ensures Told(cfg, more, next.main, next.exited)
  {
    StepJudges(cfg, st, a, next);
    ToldGrows(cfg, actions, a, more, st.main, st.exited, next.main, next.exited);
  }

  lemma {:induction false} NothingToTell(cfg: Config)
    ensures Told(cfg, [], Initial(cfg).main, Initial(cfg).exited)
  {}

  lemma {:induction false} LastStep(cfg: Config, actions: seq<Action>, st: State) returns (before: State)
    requires Run(cfg, actions) == Some(st) && actions != []
    ensures Run(cfg, actions[..|actions| - 1]) == Some(before)
    ensures Apply(cfg, before, actions[|actions| - 1]) == Some(st)
  {
    before := Run(cfg, actions[..|actions| - 1]).value;
  }

  lemma {:induction false} FrontAndLast(actions: seq<Action>, front: seq<Action>, a: Action)
    requires actions != [] && front == actions[..|actions| - 1] && a == actions[|actions| - 1]
    ensures actions == front + [a]
  {}

  lemma {:induction false} RunIsTold(cfg: Config, actions: seq<Action>, st: State)
    requires cfg.Ok() && Run(cfg, actions) == Some(st)
    ensures Told(cfg, actions, st.main, st.exited)
  {
    if actions == [] {
      NothingToTell(cfg);
    } else {
      var front, a := actions[..|actions| - 1], actions[|actions| - 1];
      FrontAndLast(actions, front, a);
      var before := LastStep(cfg, actions, st);
      RunIsTold(cfg, front, before);
      RunKeepsInv(cfg, front);
      StepIsTold(cfg, front, a, actions, before, st);
    }
  }

  /** Cleanup has one deadline, counted from the first attempt to kill the tree. */
  ghost predicate CleanupTimeOk(cfg: Config, m: Main) {
    if m.ended then m.cleanupAt == Some(m.deadline)
    else if InLoop(m.pc) then m.cleanupAt == None
    else (m.pc.FinKill? && m.cleanupAt == None) || m.cleanupAt == Some(m.now + cfg.cleanup)
  }

  lemma {:induction false} StepKeepsCleanupTime(cfg: Config, st: State, a: Action, next: State)
    requires Apply(cfg, st, a) == Some(next) && CleanupTimeOk(cfg, st.main)
    ensures CleanupTimeOk(cfg, next.main)
  {
    if IsReaderAction(a) {
      ReadersLeaveMain(st, a, next);
    } else if !a.ChildExits? {
      var main := MainPart(cfg, st, a, next);
      MainKeepsCleanupTime(cfg, st, a, main);
    }
  }

  lemma {:induction false} MainKeepsCleanupTime(cfg: Config, st: State, a: Action, next: State)
    requires MainStep(cfg, st, a) == Some(next) && CleanupTimeOk(cfg, st.main) && !a.ChildExits?
    ensures CleanupTimeOk(cfg, next.main)
  {
    if !a.StartReader? && !a.Take? && !a.Stop? {
      OwnKeepsCleanupTime(cfg, st.main, st.exited, st.queue == [],
                          Finished(st.channels.stdout) && Finished(st.channels.stderr), a, next.main);
    }
  }

  lemma {:induction false} OwnKeepsCleanupTime(
      cfg: Config, m: Main, exited: bool, queueEmpty: bool, allGone: bool, a: Action, n: Main)
    requires OwnStep(cfg, m, exited, queueEmpty, allGone, a) == Some(n) && CleanupTimeOk(cfg, m)
    ensures CleanupTimeOk(cfg, n)
  {}

  lemma {:induction false} RunKeepsCleanupTime(cfg: Config, actions: seq<Action>, st: State)
    requires Run(cfg, actions) == Some(st)
    ensures CleanupTimeOk(cfg, st.main)
  {
    if actions != [] {
      var before := LastStep(cfg, actions, st);
      RunKeepsCleanupTime(cfg, actions[..|actions| - 1], before);
      StepKeepsCleanupTime(cfg, before, actions[|actions| - 1], st);
    }
  }

  // ----- what the readers have read, and what was raised -----

  ghost predicate Delivers(ch: Channel, a: Action, s: Stream, next: Channel) {
    && next.read == ch.read + (if a.ReaderReads? && a.s == s then a.data else [])
    && (next.eof <==> ch.eof || a == ReaderEof(s))
  }

  lemma {:induction false} ReaderDelivers(st: State, a: Action, next: State, s: Stream)
    requires IsReaderAction(a) && ReaderStep(st, a) == Some(next)
    ensures Delivers(st.channels.At(s), a, s, next.channels.At(s))
  {}

  lemma {:induction false} MainDelivers(cfg: Config, st: State, a: Action, next: State, s: Stream)
    requires MainStep(cfg, st, a) == Some(next) && !IsReaderAction(a)
    ensures Delivers(st.channels.At(s), a, s, next.channels.At(s))
  {}

  lemma {:induction false} StepDelivers(cfg: Config, st: State, a: Action, next: State, s: Stream)
    requires Apply(cfg, st, a) == Some(next)
    ensures Delivers(st.channels.At(s), a, s, next.channels.At(s))
  {
    if IsReaderAction(a) {
      ReaderDelivers(st, a, next, s);
    } else if !a.ChildExits? {
      var main := MainPart(cfg, st, a, next);
      MainDelivers(cfg, st, a, main, s);
    }
  }

  /** What a channel says was read is what the pipe delivered, and its end is the pipe's. */
  lemma {:induction false} ReadIsDelivered(cfg: Config, actions: seq<Action>, st: State, s: Stream)
    requires Run(cfg, actions) == Some(st)
    ensures st.channels.At(s).read == Delivered(actions, s)
    ensures st.channels.At(s).eof <==> ReaderEof(s) in actions
  {
    if actions != [] {
      var front, a := actions[..|actions| - 1], actions[|actions| - 1];
      FrontAndLast(actions, front, a);
      var before := LastStep(cfg, actions, st);
      ReadIsDelivered(cfg, front, before, s);
      StepDelivers(cfg, before, a, st, s);
    }
  }

  /** Something went wrong in this action. */
  ghost predicate Fails(a: Action) {
    a == StartRaises || a == Interrupt || a == Take(true) || a == Wait(false)
  }

  /** The attempt to kill the tree in this action fails in this way. */
  ghost predicate KillFails(a: Action, f: Failure) {
    (a.Iterate? || a.Kill?) && a.kill == Some(f)
  }

  /** What the step did to the recorded failure: nothing, or it recorded what went wrong in this action. */
  ghost predicate Records(m: Main, next: Option<Item>, a: Action, n: Main) {
    && (Fails(a) || (a.Take? && next == Some(Fault)) ==> n.raised.Some?)
    && (n.raised == m.raised || (n.raised.Some? && match n.raised.value
          case StartFailed => a == StartRaises
          case Interrupted => a == Interrupt || KillFails(a, Interrupted)
          case KillRaised => KillFails(a, KillRaised)
          case CallbackRaised => a == Take(true)
          case WaitExpired => a == Wait(false)
          case ReadFailed => a.Take? && next == Some(Fault)
          case CleanupExpired => a.Iterate? && n.ended && n.now >= n.deadline
          case ReaderAlive => false))
  }

  ghost function NextItem(queue: seq<(Stream, Item)>): Option<Item> {
    if queue == [] then None else Some(queue[0].1)
  }

  lemma {:induction false} OwnStepRecords(
      cfg: Config, m: Main, exited: bool, queueEmpty: bool, allGone: bool, a: Action, n: Main, next: Option<Item>)
    requires OwnStep(cfg, m, exited, queueEmpty, allGone, a) == Some(n)
    ensures Records(m, next, a, n)
  {}

  lemma {:induction false} StepRecords(cfg: Config, st: State, a: Action, next: State)
    requires Apply(cfg, st, a) == Some(next)
    ensures Records(st.main, NextItem(st.queue), a, next.main)
  {
    if IsReaderAction(a) {
      ReadersLeaveMain(st, a, next);
    } else if !a.ChildExits? {
      var main := MainPart(cfg, st, a, next);
      MainRecords(cfg, st, a, main);
    }
  }

  lemma {:induction false} MainRecords(cfg: Config, st: State, a: Action, next: State)
    requires MainStep(cfg, st, a) == Some(next) && !a.ChildExits? && !IsReaderAction(a)
    ensures Records(st.main, NextItem(st.queue), a, next.main)
  {
    if !a.StartReader? && !a.Take? && !a.Stop? {
      OwnStepRecords(cfg, st.main, st.exited, st.queue == [],
                     Finished(st.channels.stdout) && Finished(st.channels.stderr), a, next.main, NextItem(st.queue));
    }
  }

  ghost predicate Failed(actions: seq<Action>) { exists i :: 0 <= i < |actions| && Fails(actions[i]) }

  ghost predicate SomeKillFails(actions: seq<Action>, f: Failure) {
    exists i :: 0 <= i < |actions| && KillFails(actions[i], f)
  }

  ghost predicate SomeReadFails(actions: seq<Action>) { exists i :: 0 <= i < |actions| && actions[i].ReaderFails? }

  /** Where in the run a failure comes from. */
  ghost predicate Happened(actions: seq<Action>, m: Main, f: Failure) {
    match f
    case StartFailed => StartRaises in actions
    case Interrupted => Interrupt in actions || SomeKillFails(actions, Interrupted)
    case KillRaised => SomeKillFails(actions, KillRaised)
    case CallbackRaised => Take(true) in actions
    case WaitExpired => Wait(false) in actions
    case ReadFailed => SomeReadFails(actions)
    case CleanupExpired => m.ended && m.now >= m.deadline
    case ReaderAlive => false
  }

  ghost predicate HasFault(st: State) {
    || st.channels.stdout.reader == Sending(Fault) || st.channels.stderr.reader == Sending(Fault)
    || exists i :: 0 <= i < |st.queue| && st.queue[i].1.Fault?
  }

  lemma {:induction false} ReaderFaults(st: State, a: Action, next: State)
    requires IsReaderAction(a) && ReaderStep(st, a) == Some(next) && HasFault(next)
    ensures HasFault(st) || a.ReaderFails?
  {
    if i :| 0 <= i < |next.queue| && next.queue[i].1.Fault? {
      if i < |st.queue| { assert next.queue[i] == st.queue[i]; }
    }
  }

  lemma {:induction false} MainFaults(cfg: Config, st: State, a: Action, next: State)
    requires MainStep(cfg, st, a) == Some(next) && !IsReaderAction(a) && HasFault(next)
    ensures HasFault(st)
  {
    if i :| 0 <= i < |next.queue| && next.queue[i].1.Fault? {
      assert next.queue[i] == st.queue[if a.Take? then i + 1 else i];
    }
  }

  lemma {:induction false} StepFaults(cfg: Config, st: State, a: Action, next: State)
    requires Apply(cfg, st, a) == Some(next) && HasFault(next)
    ensures HasFault(st) || a.ReaderFails?
  {
    if IsReaderAction(a) {
      ReaderFaults(st, a, next);
    } else if !a.ChildExits? {
      var main := MainPart(cfg, st, a, next);
      MainFaults(cfg, st, a, main);
    }
  }

  /** The run's failures: one recorded exactly if something went wrong, and only what did happen. */
  ghost predicate FailuresTold(actions: seq<Action>, m: Main, fault: bool) {
    && (fault ==> SomeReadFails(actions))
    && (Failed(actions) ==> m.raised.Some?)
    && (m.raised.Some? ==> Happened(actions, m, m.raised.value))
  }

  lemma {:induction false} HappenedBefore(
      actions: seq<Action>, a: Action, more: seq<Action>, m: Main, n: Main, f: Failure)
    requires more == actions + [a] && Happened(actions, m, f)
    requires m.ended && m.now >= m.deadline ==> n.ended && n.now >= n.deadline
    ensures Happened(more, n, f)
  {
    assert forall i :: 0 <= i < |actions| ==> more[i] == actions[i];
  }

  lemma {:induction false} FailuresGrow(
      actions: seq<Action>, a: Action, more: seq<Action>, m: Main, fault: bool, item: Option<Item>, n: Main,
      faultNow: bool)
    requires more == actions + [a] && FailuresTold(actions, m, fault) && Records(m, item, a, n)
    requires m.ended && m.now >= m.deadline ==> n.ended && n.now >= n.deadline
    requires (faultNow ==> fault || a.ReaderFails?) && (item == Some(Fault) ==> fault)
    requires m.raised.Some? ==> n.raised.Some?
    ensures FailuresTold(more, n, faultNow)
  {
    assert more[|actions|] == a && forall i :: 0 <= i < |actions| ==> more[i] == actions[i];
    if m.raised.Some? { HappenedBefore(actions, a, more, m, n, m.raised.value); }
  }

  lemma {:induction false} StepTellsFailures(
      cfg: Config, actions: seq<Action>, a: Action, more: seq<Action>, st: State, next: State)
    requires more == actions + [a] && FailuresTold(actions, st.main, HasFault(st))
    requires Apply(cfg, st, a) == Some(next) && OwnOk(cfg, st.main)
    ensures FailuresTold(more, next.main, HasFault(next))
  {
    StepRecords(cfg, st, a, next);
    StepJudges(cfg, st, a, next);
    if HasFault(next) { StepFaults(cfg, st, a, next); }
    TimeMovesOn(cfg, st, a, next);
    FailuresGrow(actions, a, more, st.main, HasFault(st), NextItem(st.queue), next.main, HasFault(next));
  }

  lemma {:induction false} TimeMovesOn(cfg: Config, st: State, a: Action, next: State)
    requires Apply(cfg, st, a) == Some(next)
    ensures a.Iterate? ==> a.elapsed >= 1
  {}

  lemma {:induction false} FailuresAreTold(cfg: Config, actions: seq<Action>, st: State)
    requires cfg.Ok() && Run(cfg, actions) == Some(st)
    ensures FailuresTold(actions, st.main, HasFault(st))
  {
    if actions != [] {
      var front, a := actions[..|actions| - 1], actions[|actions| - 1];
      FrontAndLast(actions, front, a);
      var before := LastStep(cfg, actions, st);
      FailuresAreTold(cfg, front, before);
      RunKeepsInv(cfg, front);
      StepTellsFailures(cfg, front, a, actions, before, st);
    }
  }

  lemma {:induction false} ReapedIsWaited(cfg: Config, actions: seq<Action>, st: State)
    requires Run(cfg, actions) == Some(st) && st.main.wait.Reaped?
    ensures Wait(true) in actions
  {
    if actions != [] {
      var front, a := actions[..|actions| - 1], actions[|actions| - 1];
      FrontAndLast(actions, front, a);
      var before := LastStep(cfg, actions, st);
      StepReaps(cfg, before, a, st);
      if before.main.wait.Reaped? { ReapedIsWaited(cfg, front, before); }
    }
  }

  lemma {:induction false} StepReaps(cfg: Config, st: State, a: Action, next: State)
    requires Apply(cfg, st, a) == Some(next) && next.main.wait.Reaped?
    ensures st.main.wait.Reaped? || a == Wait(true)
  {
    if IsReaderAction(a) { ReadersLeaveMain(st, a, next); }
  }

  // ----- the guarantees of an exit -----

  /**
   * A normal return holds exactly the first bytes that the pipe of each stream delivered up to its end, as many as the
   * limit allows, and says whether there were more.
   */
  lemma {:induction false} ReturnedOutputIsExact(cfg: Config, actions: seq<Action>, st: State, s: Stream)
    requires cfg.Ok() && Run(cfg, actions) == Some(st) && st.main.pc == Done(Returned) && s in cfg.streams
    ensures ReaderEof(s) in actions
    ensures
      var all, ch := Delivered(actions, s), st.channels.At(s);
      && ch.retained <= all && |ch.retained| == (if |all| <= cfg.limit then |all| else cfg.limit)
      && (ch.truncated <==> |all| > cfg.limit)
  {
    RunKeepsInv(cfg, actions);
    ReadIsDelivered(cfg, actions, st, s);
    assert Open(st.channels.At(s)) == 0;
  }

  /**
   * A normal return has killed the tree once, waited for the child and left no reader alive, and nothing went wrong on
   * the way. It says that the child timed out exactly if the child had not exited at the first turn of the loop that
   * found it gone or the time up.
   */
  lemma {:induction false} ReturnedCleanly(cfg: Config, actions: seq<Action>, st: State) returns (i: nat)
    requires cfg.Ok() && Run(cfg, actions) == Some(st) && st.main.pc == Done(Returned)
    ensures st.main.kills == 1 && ChildExits in actions && Wait(true) in actions && !Failed(actions)
    ensures st.channels.stdout.reader.Gone? || (st.channels.stdout.reader.Unstarted? && Stdout !in cfg.streams)
    ensures st.channels.stderr.reader.Gone? || (st.channels.stderr.reader.Unstarted? && Stderr !in cfg.streams)
    ensures EndsWait(cfg, actions, i) && (st.main.timedOut <==> ChildExits !in actions[..i])
    ensures st.main.timedOut ==> Elapsed(actions[..i + 1]) >= cfg.timeout
  {
    RunKeepsInv(cfg, actions);
    RunIsTold(cfg, actions, st);
    FailuresAreTold(cfg, actions, st);
    ReapedIsWaited(cfg, actions, st);
    i :| Accounts(cfg, actions, st.main, i);
  }

  /**
   * Every exit has attempted the kill and set the flag: one attempt, or two when the loop's own attempt failed. The
   * child has exited and was waited for, unless the kill in the `finally` block failed or the wait expired; either
   * failure is reported, or a reader that did not stop. Cleanup had one deadline, from the first attempt on.
   */
  lemma {:induction false} EveryExitCleansUp(cfg: Config, actions: seq<Action>, st: State)
    requires cfg.Ok() && Run(cfg, actions) == Some(st) && st.main.pc.Done?
    ensures st.main.kills == if st.main.killBroken then 2 else 1
    ensures st.stop && !st.main.wait.NotYet?
    ensures st.main.wait.Reaped? ==> ChildExits in actions && Wait(true) in actions
    ensures st.main.wait.KillFailed? ==>
      st.main.pc.outcome in {Raised(KillRaised), Raised(Interrupted), Raised(ReaderAlive)}
    ensures st.main.wait.Expired? ==> st.main.pc.outcome in {Raised(WaitExpired), Raised(ReaderAlive)}
    ensures st.main.cleanupAt == Some(if st.main.ended then st.main.deadline else st.main.now + cfg.cleanup)
  {
    RunKeepsInv(cfg, actions);
    RunIsTold(cfg, actions, st);
    RunKeepsCleanupTime(cfg, actions, st);
    if st.main.wait.Reaped? { ReapedIsWaited(cfg, actions, st); }
  }

  /** What went wrong is reported, and what is reported went wrong, or a reader was still alive at the end. */
  lemma {:induction false} ExitsTellTheTruth(cfg: Config, actions: seq<Action>, st: State)
    requires cfg.Ok() && Run(cfg, actions) == Some(st) && st.main.pc.Done?
    ensures Failed(actions) ==> st.main.pc.outcome.Raised?
    ensures st.main.pc.outcome.Raised? ==>
      st.main.pc.outcome.failure.ReaderAlive? || Happened(actions, st.main, st.main.pc.outcome.failure)
  {
    RunKeepsInv(cfg, actions);
    FailuresAreTold(cfg, actions, st);
  }

  /** The loop ends in bounded time and in a bounded number of main-thread steps, whatever child and readers do. */
  lemma {:induction false} LoopIsBounded(cfg: Config, st: State)
    requires Reachable(cfg, st)
    ensures
      var bound := cfg.timeout + cfg.cleanup + 2 * cfg.delta;
      st.main.now < cfg.started + bound && st.main.heads < bound && st.main.steps <= 2 * bound + 6
  {
    ReachableInv(cfg, st);
  }

  /** The main thread is never stuck: short of the end it can always act, if need be by giving up. */
  lemma {:induction false} MainCanAct(cfg: Config, st: State) returns (a: Action)
    requires Reachable(cfg, st) && !st.main.pc.Done?
    ensures !IsReaderAction(a) && !a.ChildExits? && Apply(cfg, st, a).Some? && Reachable(cfg, Apply(cfg, st, a).value)
  {
    ReachableInv(cfg, st);
    a := EnabledAction(cfg, st);
    var next := ReachNext(cfg, st, a);
  }

  lemma {:induction false} ReachNext(cfg: Config, st: State, a: Action) returns (next: State)
    requires Reachable(cfg, st) && Apply(cfg, st, a).Some?
    ensures next == Apply(cfg, st, a).value && Reachable(cfg, next)
  {
    next := Apply(cfg, st, a).value;
    var actions :| Run(cfg, actions) == Some(st);
    assert (actions + [a])[..|actions|] == actions;
    assert Run(cfg, actions + [a]) == Some(next);
  }

  lemma {:induction false} EnabledAction(cfg: Config, st: State) returns (a: Action)
    requires cfg.Ok() && PhaseOk(cfg, st.main) && !st.main.pc.Done?
    ensures !IsReaderAction(a) && !a.ChildExits? && MainStep(cfg, st, a).Some?
  {
    match st.main.pc {
      case Starting(k) => a := if k < |cfg.streams| then StartReader else EnterLoop;
      case Head => a := if st.main.pending == 0 && st.main.ended then LeaveLoop else Iterate(1, None);
      case Get => a := if st.queue == [] then TakeNothing else Take(false);
      case FinKill => a := Kill(None);
      case FinWait => a := Wait(false);
      case FinStop => a := Stop;
      case FinJoin => a := Join;
    }
  }

  // ----- a run that returns -----

  /** The reader has sent the output and the sentinel, and the main thread is about to enter the loop. */
  lemma {:induction false} OutputQueued(cfg: Config, data: seq<Byte>) returns (st: State)
    requires cfg.Ok() && cfg.streams == [Stdout] && 0 < |data| <= CHUNK_BYTES
    ensures Reachable(cfg, st) && !st.exited && !st.stop && st.queue == [(Stdout, Data(data)), (Stdout, End)]
    ensures st.main == Initial(cfg).main.(pc := Starting(1), pending := 1, steps := 1)
    ensures st.channels.stdout == Channel(Gone, data, true, [Data(data), End], [], [], false)
    ensures st.channels.stderr == Initial(cfg).channels.stderr
  {
    st := Initial(cfg);
    assert Run(cfg, []) == Some(st);
    st := ReachNext(cfg, st, StartReader);
    st := ReachNext(cfg, st, ReaderReads(Stdout, data));
    st := ReachNext(cfg, st, ReaderPuts(Stdout));
    st := ReachNext(cfg, st, ReaderEof(Stdout));
    st := ReachNext(cfg, st, ReaderPuts(Stdout));
  }

  /** One turn of the loop, before the child has exited or the deadline has come, handles the next item. */
  lemma {:induction false} TurnTakes(cfg: Config, st: State) returns (next: State)
    requires Reachable(cfg, st) && st.main.pc == Head && !st.main.ended && !st.exited && st.main.pending != 0
    requires st.main.now + 1 < st.main.deadline && st.queue != [] && !st.queue[0].1.Fault? && cfg.delta >= 1
    ensures Reachable(cfg, next)
    ensures
      var (s, item) := st.queue[0];
      && next.queue == st.queue[1..] && next.stop == st.stop && next.exited == st.exited
      && next.channels == st.channels.With(s, Handle(st.channels.At(s), item, cfg.limit))
      && next.main.pc == Head && !next.main.ended && next.main.raised == st.main.raised
      && next.main.pending == (if item.End? then st.main.pending - 1 else st.main.pending)
      && next.main.now == st.main.now + 1 && next.main.deadline == st.main.deadline
  {
    var waiting := ReachNext(cfg, st, Iterate(1, None));
    next := ReachNext(cfg, waiting, Take(false));
  }

  /** The main thread has handled everything, and the child is still alive. */
  lemma {:induction false} OutputTaken(cfg: Config, data: seq<Byte>) returns (st: State)
    requires cfg.Ok() && cfg.streams == [Stdout] && 0 < |data| <= CHUNK_BYTES && cfg.timeout > 3
    ensures Reachable(cfg, st) && !st.exited && !st.stop && st.queue == []
    ensures st.main.pc == Head && st.main.pending == 0 && !st.main.ended && st.main.raised.None?
    ensures st.main.now + 1 < st.main.deadline && st.main.deadline == cfg.started + cfg.timeout
    ensures st.channels.stdout.reader == Gone && st.channels.stdout.read == data
    ensures st.channels.stderr.reader == Unstarted
  {
    var queued := OutputQueued(cfg, data);
    var entered := ReachNext(cfg, queued, EnterLoop);
    var first := TurnTakes(cfg, entered);
    st := TurnTakes(cfg, first);
  }

  /** The main thread has handled everything and the child has exited before its deadline. */
  lemma {:induction false} OutputHandled(cfg: Config, data: seq<Byte>) returns (st: State)
    requires cfg.Ok() && cfg.streams == [Stdout] && 0 < |data| <= CHUNK_BYTES && cfg.timeout > 3
    ensures Reachable(cfg, st) && st.exited && !st.stop && st.queue == []
    ensures st.main.pc == Head && st.main.pending == 0 && !st.main.ended && st.main.raised.None?
    ensures st.main.now + 1 < st.main.deadline && st.main.deadline == cfg.started + cfg.timeout
    ensures st.channels.stdout.reader == Gone && st.channels.stdout.read == data
    ensures st.channels.stderr.reader == Unstarted
  {
    var taken := OutputTaken(cfg, data);
    st := ReachNext(cfg, taken, ChildExits);
  }

  /** From the last handled item to the end of the loop. */
  lemma {:induction false} LoopLeft(cfg: Config, st: State) returns (left: State)
    requires Reachable(cfg, st) && st.exited && st.queue == [] && cfg.delta >= 1
    requires st.main.pc == Head && st.main.pending == 0 && !st.main.ended && st.main.raised.None?
    ensures Reachable(cfg, left) && left == st.(main := left.main)
    ensures left.main.pc == FinKill && left.main.ended && left.main.raised.None? && !left.main.timedOut
  {
    var polled := ExitSeen(cfg, st);
    var empty := ReachNext(cfg, polled, TakeNothing);
    assert empty.main.pc == Head && empty.main.pending == 0 && empty.main.ended && !empty.main.timedOut;
    left := ReachNext(cfg, empty, LeaveLoop);
  }

  /** The turn of the loop that finds the child gone. */
  lemma {:induction false} ExitSeen(cfg: Config, st: State) returns (polled: State)
    requires Reachable(cfg, st) && st.exited && cfg.delta >= 1
    requires st.main.pc == Head && st.main.pending == 0 && !st.main.ended && st.main.raised.None?
    ensures Reachable(cfg, polled) && polled == st.(main := polled.main)
    ensures polled.main.pc == Get && polled.main.pending == 0 && polled.main.ended && polled.main.raised.None?
    ensures !polled.main.timedOut
  {
    polled := ReachNext(cfg, st, Iterate(1, None));
  }

  /** From the `finally` to the return. */
  lemma {:induction false} CleanedUp(cfg: Config, st: State) returns (last: State)
    requires Reachable(cfg, st) && st.exited && Finished(st.channels.stdout) && Finished(st.channels.stderr)
    requires st.main.pc == FinKill && st.main.ended && st.main.raised.None?
    ensures Reachable(cfg, last) && last.main.pc == Done(Returned) && last.channels == st.channels
    ensures last.main.timedOut == st.main.timedOut
  {
    var waited := ChildReaped(cfg, st);
    last := ReadersJoined(cfg, waited);
  }

  lemma {:induction false} ChildReaped(cfg: Config, st: State) returns (waited: State)
    requires Reachable(cfg, st) && st.exited && st.main.pc == FinKill && st.main.ended && st.main.raised.None?
    ensures Reachable(cfg, waited) && waited.channels == st.channels
    ensures waited.main.pc == FinStop && waited.main.raised.None? && waited.main.timedOut == st.main.timedOut
  {
    var killed := KillPassed(cfg, st);
    waited := ChildWaited(cfg, killed);
  }

  lemma {:induction false} KillPassed(cfg: Config, st: State) returns (killed: State)
    requires Reachable(cfg, st) && st.main.pc == FinKill && st.main.ended
    ensures Reachable(cfg, killed) && killed.channels == st.channels && killed.exited == st.exited
    ensures killed.main.pc == FinWait && killed.main.raised == st.main.raised
    ensures killed.main.timedOut == st.main.timedOut
  {
    killed := ReachNext(cfg, st, Kill(None));
  }

  lemma {:induction false} ChildWaited(cfg: Config, st: State) returns (waited: State)
    requires Reachable(cfg, st) && st.exited && st.main.pc == FinWait
    ensures Reachable(cfg, waited) && waited.channels == st.channels
    ensures waited.main.pc == FinStop && waited.main.raised == st.main.raised && waited.main.kills == st.main.kills
    ensures waited.main.wait.Reaped? && waited.main.timedOut == st.main.timedOut
  {
    waited := ReachNext(cfg, st, Wait(true));
  }

  lemma {:induction false} ReadersJoined(cfg: Config, st: State) returns (last: State)
    requires Reachable(cfg, st) && Finished(st.channels.stdout) && Finished(st.channels.stderr)
    requires st.main.pc == FinStop && st.main.raised.None?
    ensures Reachable(cfg, last) && last.main.pc == Done(Returned) && last.channels == st.channels
    ensures last.main.timedOut == st.main.timedOut
  {
    var stopped := ReachNext(cfg, st, Stop);
    assert stopped.main.pc == FinJoin && stopped.main.raised.None? && stopped.channels == st.channels;
    assert stopped.main.timedOut == st.main.timedOut;
    last := JoinReturns(cfg, stopped);
  }

  lemma {:induction false} JoinReturns(cfg: Config, st: State) returns (last: State)
    requires Reachable(cfg, st) && Finished(st.channels.stdout) && Finished(st.channels.stderr)
    requires st.main.pc == FinJoin && st.main.raised.None?
    ensures Reachable(cfg, last) && last.main.pc == Done(Returned) && last.channels == st.channels
    ensures last.main.timedOut == st.main.timedOut
  {
    JoinEnds(cfg, st);
    last := ReachNext(cfg, st, Join);
  }

  lemma {:induction false} JoinEnds(cfg: Config, st: State)
    requires Finished(st.channels.stdout) && Finished(st.channels.stderr)
    requires st.main.pc == FinJoin && st.main.raised.None?
    ensures Apply(cfg, st, Join) == Some(st.(main := st.main.(pc := Done(Returned), steps := st.main.steps + 1)))
  {}

  /** Normal returns exist: the child writes anything up to one chunk, and the runner returns all of it. */
  lemma {:induction false} NormalReturnIsReachable(cfg: Config, data: seq<Byte>) returns (st: State)
    requires cfg.Ok() && cfg.streams == [Stdout] && 0 < |data| <= CHUNK_BYTES && cfg.timeout > 3
    ensures Reachable(cfg, st) && st.main.pc == Done(Returned) && st.channels.stdout.read == data && !st.main.timedOut
  {
    var handled := OutputHandled(cfg, data);
    var left := LoopLeft(cfg, handled);
    st := CleanedUp(cfg, left);
  }

  // ----- a run that times out -----

  /** Nothing happens until the last turn before the deadline. */
  lemma {:induction false} WaitedOut(cfg: Config, st: State) returns (late: State)
    requires Reachable(cfg, st) && !st.exited && st.queue == [] && cfg.delta >= 1
    requires st.main.pc == Head && st.main.pending == 0 && !st.main.ended && st.main.raised.None?
    requires st.main.now < st.main.deadline
    ensures Reachable(cfg, late) && late == st.(main := late.main)
    ensures late.main.pc == Head && late.main.pending == 0 && !late.main.ended && late.main.raised.None?
    ensures late.main.now + 1 == late.main.deadline == st.main.deadline
    decreases st.main.deadline - st.main.now
  {
    if st.main.now + 1 == st.main.deadline {
      late := st;
    } else {
      var idle := IdleTurn(cfg, st);
      late := WaitedOut(cfg, idle);
    }
  }

  lemma {:induction false} IdleTurn(cfg: Config, st: State) returns (idle: State)
    requires Reachable(cfg, st) && !st.exited && st.queue == [] && cfg.delta >= 1
    requires st.main.pc == Head && st.main.pending == 0 && !st.main.ended && st.main.raised.None?
    requires st.main.now + 1 < st.main.deadline
    ensures Reachable(cfg, idle) && idle == st.(main := idle.main)
    ensures idle.main.pc == Head && idle.main.pending == 0 && !idle.main.ended && idle.main.raised.None?
    ensures idle.main.now == st.main.now + 1 && idle.main.deadline == st.main.deadline
  {
    var polled := ReachNext(cfg, st, Iterate(1, None));
    assert polled.main.pc == Get && !polled.main.ended && polled.main.pending == 0;
    idle := ReachNext(cfg, polled, TakeNothing);
  }

  /** The turn that finds the time up kills the child, which then exits. */
  lemma {:induction false} TimeUp(cfg: Config, st: State) returns (killed: State)
    requires Reachable(cfg, st) && !st.exited && st.queue == [] && cfg.delta >= 1
    requires st.main.pc == Head && st.main.pending == 0 && !st.main.ended && st.main.raised.None?
    requires st.main.now + 1 == st.main.deadline
    ensures Reachable(cfg, killed) && killed == st.(main := killed.main, exited := true)
    ensures killed.main.pc == Get && killed.main.pending == 0 && killed.main.ended && killed.main.raised.None?
    ensures killed.main.timedOut
  {
    var late := ReachNext(cfg, st, Iterate(1, None));
    assert late.main.pc == Get && late.main.ended && late.main.timedOut && late.main.pending == 0;
    killed := ReachNext(cfg, late, ChildExits);
  }

  lemma {:induction false} LateLoopLeft(cfg: Config, st: State) returns (left: State)
    requires Reachable(cfg, st) && st.main.pc == Get && st.queue == []
    requires st.main.pending == 0 && st.main.ended && st.main.raised.None?
    ensures Reachable(cfg, left) && left == st.(main := left.main) && left.main.timedOut == st.main.timedOut
    ensures left.main.pc == FinKill && left.main.ended && left.main.raised.None?
  {
    var empty := ReachNext(cfg, st, TakeNothing);
    assert empty.main.pc == Head && empty.main.pending == 0 && empty.main.ended;
    left := ReachNext(cfg, empty, LeaveLoop);
  }

  /** Normal returns that report a timeout exist: the child writes its output and does not exit by itself. */
  lemma {:induction false} TimedOutReturnIsReachable(cfg: Config, data: seq<Byte>) returns (st: State)
    requires cfg.Ok() && cfg.streams == [Stdout] && 0 < |data| <= CHUNK_BYTES && cfg.timeout > 3
    ensures Reachable(cfg, st) && st.main.pc == Done(Returned) && st.channels.stdout.read == data && st.main.timedOut
  {
    var taken := OutputTaken(cfg, data);
    var late := WaitedOut(cfg, taken);
    var killed := TimeUp(cfg, late);
    var left := LateLoopLeft(cfg, killed);
    st := CleanedUp(cfg, left);
  }

  // ----- a run in which the kill is attempted twice -----

  /** The child has exited and the reader has sent its sentinel when the main thread comes to the loop. */
  lemma {:induction false} NothingWritten(cfg: Config) returns (st: State)
    requires cfg.Ok() && cfg.streams == [Stdout]
    ensures Reachable(cfg, st) && st.exited && st.main == Initial(cfg).main.(pc := Head, pending := 1, steps := 2)
    ensures Finished(st.channels.stdout) && Finished(st.channels.stderr)
  {
    st := SentinelSent(cfg);
    st := ReachNext(cfg, st, EnterLoop);
    st := ReachNext(cfg, st, ChildExits);
  }

  lemma {:induction false} SentinelSent(cfg: Config) returns (st: State)
    requires cfg.Ok() && cfg.streams == [Stdout]
    ensures Reachable(cfg, st) && st.main == Initial(cfg).main.(pc := Starting(1), pending := 1, steps := 1)
    ensures Finished(st.channels.stdout) && Finished(st.channels.stderr)
  {
    st := Initial(cfg);
    assert Run(cfg, []) == Some(st);
    st := ReachNext(cfg, st, StartReader);
    st := ReachNext(cfg, st, ReaderEof(Stdout));
    st := ReachNext(cfg, st, ReaderPuts(Stdout));
  }

  /** The loop's own kill fails, and the `finally` block tries again. */
  lemma {:induction false} KilledAgain(cfg: Config, st: State, failure: Failure) returns (again: State)
    requires Reachable(cfg, st) && st.main.pc == Head && !st.main.ended && st.main.kills == 0 && st.exited
    requires failure in {KillRaised, Interrupted}
    ensures Reachable(cfg, again) && again.channels == st.channels && again.exited
    ensures again.main.pc == FinWait && again.main.kills == 2 && again.main.raised == Some(failure)
  {
    var broken := LoopKillFails(cfg, st, failure);
    again := ReachNext(cfg, broken, Kill(None));
  }

  lemma {:induction false} LoopKillFails(cfg: Config, st: State, failure: Failure) returns (broken: State)
    requires Reachable(cfg, st) && st.main.pc == Head && !st.main.ended && st.main.kills == 0 && st.exited
    requires failure in {KillRaised, Interrupted}
    ensures Reachable(cfg, broken) && broken.channels == st.channels && broken.exited
    ensures broken.main.pc == FinKill && !broken.main.ended && broken.main.kills == 1
    ensures broken.main.raised == Some(failure)
  {
    broken := ReachNext(cfg, st, Iterate(1, Some(failure)));
  }

  /** From a failing `finally` block to the exception. */
  lemma {:induction false} FailureLeaves(cfg: Config, st: State, failure: Failure) returns (last: State)
    requires Reachable(cfg, st) && st.exited && Finished(st.channels.stdout) && Finished(st.channels.stderr)
    requires st.main.pc == FinWait && st.main.raised == Some(failure)
    ensures Reachable(cfg, last) && last.main.pc == Done(Raised(failure)) && last.main.kills == st.main.kills
    ensures last.main.wait.Reaped?
  {
    var waited := ChildWaited(cfg, st);
    var stopped := FailureStops(cfg, waited);
    last := FailureJoins(cfg, stopped, failure);
  }

  lemma {:induction false} FailureStops(cfg: Config, st: State) returns (stopped: State)
    requires Reachable(cfg, st) && st.main.pc == FinStop
    ensures Reachable(cfg, stopped) && stopped.channels == st.channels
    ensures stopped.main.pc == FinJoin && stopped.main.raised == st.main.raised && stopped.main.kills == st.main.kills
    ensures stopped.main.wait == st.main.wait
  {
    stopped := ReachNext(cfg, st, Stop);
  }

  lemma {:induction false} FailureJoins(cfg: Config, st: State, failure: Failure) returns (last: State)
    requires Reachable(cfg, st) && Finished(st.channels.stdout) && Finished(st.channels.stderr)
    requires st.main.pc == FinJoin && st.main.raised == Some(failure)
    ensures Reachable(cfg, last) && last.main.pc == Done(Raised(failure)) && last.main.kills == st.main.kills
    ensures last.main.wait == st.main.wait
  {
    JoinRaises(cfg, st, failure);
    last := ReachNext(cfg, st, Join);
  }

  lemma {:induction false} JoinRaises(cfg: Config, st: State, failure: Failure)
    requires Finished(st.channels.stdout) && Finished(st.channels.stderr)
    requires st.main.pc == FinJoin && st.main.raised == Some(failure)
    ensures Apply(cfg, st, Join) == Some(st.(main := st.main.(pc := Done(Raised(failure)), steps := st.main.steps + 1)))
  {}

  /** Two kill attempts do happen: the one in the loop fails, the second succeeds, and the first failure is reported. */
  lemma {:induction false} TwoKillsAreReachable(cfg: Config, failure: Failure) returns (st: State)
    requires cfg.Ok() && cfg.streams == [Stdout] && failure in {KillRaised, Interrupted}
    ensures Reachable(cfg, st) && st.main.pc == Done(Raised(failure)) && st.main.kills == 2 && st.main.wait.Reaped?
  {
    var head := NothingWritten(cfg);
    var again := KilledAgain(cfg, head, failure);
    st := FailureLeaves(cfg, again, failure);
  }
}
