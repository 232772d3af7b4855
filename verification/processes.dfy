/**
 * The bounded subprocess runner as a state machine: reader threads, a bounded queue, a stop flag, and a main thread
 * with two deadlines. Every interleaving of the actions below is a run.
 */
module Processes {
  import opened Wrappers

  type Byte = n: nat | n < 256

  datatype Stream = Stdout | Stderr

  datatype Item = Data(bytes: seq<Byte>) | Fault | End

  /** Where a reader thread is: reading, blocked in `send`, or finished. */
  datatype Reader = Unstarted | Reading | Sending(item: Item) | Gone

  datatype Channel = Channel(
    reader: Reader,
    read: seq<Byte>,      // everything the thread has read from the pipe
    eof: bool,            // the pipe reported its end
    sent: seq<Item>,      // everything the thread has put into the queue
    taken: seq<Item>,     // everything the main thread has handled
    retained: seq<Byte>,
    truncated: bool)

  datatype Channels = Channels(stdout: Channel, stderr: Channel)
  {
    function At(s: Stream): Channel {
      match s case Stdout => stdout case Stderr => stderr
    }

    function With(s: Stream, ch: Channel): Channels {
      match s case Stdout => Channels(ch, stderr) case Stderr => Channels(stdout, ch)
    }
  }

  datatype Failure =
    | StartFailed | Interrupted | KillRaised | CleanupExpired | ReadFailed | CallbackRaised | WaitExpired | ReaderAlive

  /** How the wait for the child ended; without one, the last kill attempt failed or the wait expired. */
  datatype WaitEnd = NotYet | Reaped | KillFailed | Expired

  datatype Outcome = Returned | Raised(failure: Failure)

  /** The main thread's program counter. */
  datatype Pc = Starting(k: nat) | Head | Get | FinKill | FinWait | FinStop | FinJoin | Done(outcome: Outcome)

  datatype Config = Config(
    streams: seq<Stream>, limit: nat, started: int, timeout: int, cleanup: int, delta: int)
  {
    predicate Ok() {
      timeout > 0 && cleanup > 0 && delta > 0 && streams in {[Stdout], [Stdout, Stderr]}
    }
  }

  const QUEUE_SIZE: nat := 64
  const CHUNK_BYTES: nat := 8192

  /** The main thread's own variables; `heads`, `steps`, `kills`, `killBroken` and `wait` only record what happened. */
  datatype Main = Main(
    pc: Pc, now: int, heads: nat, steps: nat,
    deadline: int, ended: bool, timedOut: bool, cleanupAt: Option<int>,
    kills: nat, killBroken: bool,
    pending: int, wait: WaitEnd, raised: Option<Failure>)

  datatype State = State(main: Main, exited: bool, stop: bool, queue: seq<(Stream, Item)>, channels: Channels)

  function Initial(cfg: Config): State {
    var ch := Channel(Unstarted, [], false, [], [], [], false);
    State(
      Main(Starting(0), cfg.started, 0, 0, cfg.started + cfg.timeout, false, false, None, 0, false, 0, NotYet, None),
      false, false, [], Channels(ch, ch))
  }

  datatype Action =
    | ReaderReads(s: Stream, data: seq<Byte>) | ReaderEof(s: Stream) | ReaderFails(s: Stream)
    | ReaderPuts(s: Stream) | ReaderDrops(s: Stream) | ReaderStops(s: Stream)
    | ChildExits
    | StartReader | StartRaises | EnterLoop | Iterate(elapsed: int, kill: Option<Failure>) | LeaveLoop
    | Take(callbackRaises: bool) | TakeNothing | Interrupt
    | Kill(kill: Option<Failure>) | Wait(reaped: bool) | Stop | Join

  predicate IsReaderAction(a: Action) {
    a.ReaderReads? || a.ReaderEof? || a.ReaderFails? || a.ReaderPuts? || a.ReaderDrops? || a.ReaderStops?
  }

  // ----- reader threads -----

  function AfterSend(item: Item): Reader {
    match item
    case Data(_) => Reading
    case Fault => Sending(End)
    case End => Gone
  }

  function AfterPut(ch: Channel): Channel
    requires ch.reader.Sending?
  {
    ch.(reader := AfterSend(ch.reader.item), sent := ch.sent + [ch.reader.item])
  }

  /** What a reader thread does to its own channel; `stop` is the shared flag. */
  function ReaderEffect(ch: Channel, a: Action, stop: bool, room: bool): Option<Channel>
    requires IsReaderAction(a)
  {
    match a
    case ReaderReads(_, data) =>
      if ch.reader == Reading && 0 < |data| <= CHUNK_BYTES then
        Some(ch.(reader := Sending(Data(data)), read := ch.read + data))
      else None
    case ReaderEof(_) => if ch.reader == Reading then Some(ch.(reader := Sending(End), eof := true)) else None
    case ReaderFails(_) => if ch.reader == Reading then Some(ch.(reader := Sending(Fault))) else None
    case ReaderStops(_) => if ch.reader == Reading && stop then Some(ch.(reader := Sending(End))) else None
    case ReaderPuts(_) => if ch.reader.Sending? && room then Some(AfterPut(ch)) else None
    case ReaderDrops(_) =>
      if ch.reader.Sending? && stop then Some(ch.(reader := AfterSend(ch.reader.item))) else None
  }

  function ReaderStep(st: State, a: Action): Option<State>
    requires IsReaderAction(a)
  {
    var ch := st.channels.At(a.s);
    match ReaderEffect(ch, a, st.stop, |st.queue| < QUEUE_SIZE)
    case None => None
    case Some(next) =>
      Some(st.(channels := st.channels.With(a.s, next),
               queue := if a.ReaderPuts? then st.queue + [(a.s, ch.reader.item)] else st.queue))
  }

  // ----- the main thread -----

  function Raise(m: Main, failure: Failure): Main {
    m.(raised := Some(failure), pc := FinKill)
  }

  /** Keep as much of the data as the limit still allows, and note whether something was cut off. */
  function Retain(ch: Channel, data: seq<Byte>, limit: nat): Channel {
    var remaining := limit - |ch.retained|;
    var kept := if remaining < 0 then [] else if remaining < |data| then data[..remaining] else data;
    ch.(retained := ch.retained + kept,
        truncated := ch.truncated || |data| > remaining)
  }

  function Handle(ch: Channel, item: Item, limit: nat): Channel {
    var ch1 := ch.(taken := ch.taken + [item]);
    if item.Data? then Retain(ch1, item.bytes, limit) else ch1
  }

  /** One turn of the loop up to the queue: sample the clock, poll, start cleanup, give up on cleanup. */
  function IterateMain(cfg: Config, m: Main, exited: bool, elapsed: int, kill: Option<Failure>): Main {
    var now := m.now + elapsed;
    var m1 := m.(now := now, heads := m.heads + 1);
    if !m.ended && (exited || now >= m.deadline) then
      var m2 := m1.(
        timedOut := !exited && now >= m.deadline, cleanupAt := Some(now + cfg.cleanup), kills := m.kills + 1);
      if kill.Some? then Raise(m2.(killBroken := true), kill.value)
      else m2.(ended := true, deadline := now + cfg.cleanup, pc := Get)
    else if m.ended && now >= m.deadline then Raise(m1, CleanupExpired)
    else m1.(pc := Get)
  }

  function TakeMain(m: Main, item: Item, callbackRaises: bool): Main {
    var m1 := m.(pending := if item.End? then m.pending - 1 else m.pending);
    if item.Fault? then Raise(m1, ReadFailed)
    else if callbackRaises then Raise(m1, CallbackRaised)
    else m1.(pc := Head)
  }

  function KillMain(cfg: Config, m: Main, kill: Option<Failure>): Main {
    var m1 := m.(cleanupAt := if m.cleanupAt.None? then Some(m.now + cfg.cleanup) else m.cleanupAt);
    if m.ended then m1.(pc := FinWait)
    else
      var m2 := m1.(kills := m.kills + 1);
      if kill.Some? then m2.(raised := kill, wait := KillFailed, pc := FinStop) else m2.(pc := FinWait)
  }

  /** How an attempt to kill the tree may end: it succeeds, raises, or an interrupt arrives while it is under way. */
  predicate KillMayEnd(kill: Option<Failure>) {
    kill in {None, Some(KillRaised), Some(Interrupted)}
  }

  /** Main-thread actions on its own variables alone. */
  function OwnStep(cfg: Config, m: Main, exited: bool, queueEmpty: bool, allGone: bool, a: Action): Option<Main> {
    match a
    case StartRaises => if m.pc.Starting? && m.pc.k < |cfg.streams| then Some(Raise(m, StartFailed)) else None
    case EnterLoop => if m.pc.Starting? && m.pc.k >= |cfg.streams| then Some(m.(pc := Head)) else None
    case Iterate(elapsed, kill) =>
      if m.pc.Head? && (m.pending != 0 || !m.ended) && 1 <= elapsed <= cfg.delta && KillMayEnd(kill) then
        Some(IterateMain(cfg, m, exited, elapsed, kill))
      else None
    case LeaveLoop => if m.pc.Head? && m.pending == 0 && m.ended then Some(m.(pc := FinKill)) else None
    case TakeNothing => if m.pc.Get? && queueEmpty then Some(m.(pc := Head)) else None
    case Interrupt => if m.pc.Starting? || m.pc.Head? || m.pc.Get? then Some(Raise(m, Interrupted)) else None
    case Kill(kill) => if m.pc.FinKill? && KillMayEnd(kill) then Some(KillMain(cfg, m, kill)) else None
    case Wait(reaped) =>
      if !m.pc.FinWait? then None
      else if !reaped then Some(m.(raised := Some(WaitExpired), wait := Expired, pc := FinStop))
      else if exited then Some(m.(wait := Reaped, pc := FinStop))
      else None
    case Join =>
      if !m.pc.FinJoin? then None
      else if !allGone then Some(m.(pc := Done(Raised(ReaderAlive))))
      else Some(m.(pc := Done(OutcomeOf(m.raised))))
    case _ => None
  }

  predicate Finished(ch: Channel) {
    ch.reader in {Unstarted, Gone}
  }

  function MainStep(cfg: Config, st: State, a: Action): Option<State> {
    match a
    case StartReader =>
      if st.main.pc.Starting? && st.main.pc.k < |cfg.streams| then
        var s := cfg.streams[st.main.pc.k];
        Some(st.(main := st.main.(pc := Starting(st.main.pc.k + 1), pending := st.main.pending + 1),
                 channels := st.channels.With(s, st.channels.At(s).(reader := Reading))))
      else None
    case Take(callbackRaises) =>
      if st.main.pc.Get? && st.queue != [] then
        var (s, item) := st.queue[0];
        Some(st.(main := TakeMain(st.main, item, callbackRaises), queue := st.queue[1..],
                 channels := st.channels.With(s, Handle(st.channels.At(s), item, cfg.limit))))
      else None
    case Stop =>
      if st.main.pc.FinStop? then Some(st.(main := st.main.(pc := FinJoin), stop := true)) else None
    case _ =>
      match OwnStep(cfg, st.main, st.exited, st.queue == [],
                    Finished(st.channels.stdout) && Finished(st.channels.stderr), a)
      case None => None
      case Some(m) => Some(st.(main := m))
  }

  /** The effect of one action, or `None` where the action is not possible. */
  function Apply(cfg: Config, st: State, a: Action): Option<State> {
    if IsReaderAction(a) then ReaderStep(st, a)
    else if a.ChildExits? then Some(st.(exited := true))
    else
      match MainStep(cfg, st, a)
      case None => None
      case Some(next) => Some(next.(main := next.main.(steps := st.main.steps + 1)))
  }

  /** The state after a sequence of actions, if they are possible one after the other. */
  function Run(cfg: Config, actions: seq<Action>): Option<State> {
    if actions == [] then Some(Initial(cfg))
    else
      match Run(cfg, actions[..|actions| - 1])
      case None => None
      case Some(st) => Apply(cfg, st, actions[|actions| - 1])
  }

  // ----- what the queue holds for one stream -----

  function ItemsFor(queue: seq<(Stream, Item)>, s: Stream): seq<Item> {
    if queue == [] then []
    else (if queue[0].0 == s then [queue[0].1] else []) + ItemsFor(queue[1..], s)
  }

  function Bytes(items: seq<Item>): seq<Byte> {
    if items == [] then []
    else
      var last := items[|items| - 1];
      Bytes(items[..|items| - 1]) + if last.Data? then last.bytes else []
  }

  function HeldBytes(reader: Reader): seq<Byte> {
    if reader.Sending? && reader.item.Data? then reader.item.bytes else []
  }

  function Truncate(bytes: seq<Byte>, limit: nat): seq<Byte> {
    if |bytes| <= limit then bytes else bytes[..limit]
  }

  lemma {:induction false} ItemsForAppend(queue: seq<(Stream, Item)>, e: (Stream, Item), s: Stream)
    ensures ItemsFor(queue + [e], s) == ItemsFor(queue, s) + if e.0 == s then [e.1] else []
  {
    var more := queue + [e];
    if queue == [] {
      assert more[0] == e && more[1..] == [];
    } else {
      var first, last := if queue[0].0 == s then [queue[0].1] else [], if e.0 == s then [e.1] else [];
      assert more[0] == queue[0] && more[1..] == queue[1..] + [e];
      ItemsForAppend(queue[1..], e, s);
      assert first + (ItemsFor(queue[1..], s) + last) == first + ItemsFor(queue[1..], s) + last;
    }
  }

  lemma {:induction false} BytesAppend(items: seq<Item>, item: Item)
    ensures Bytes(items + [item]) == Bytes(items) + if item.Data? then item.bytes else []
  {
    assert (items + [item])[..|items|] == items;
  }

  // ----- the invariant of one channel -----

  /** The sentinel is sent once, last, by a finished reader. */
  ghost predicate SentinelOk(ch: Channel, stop: bool) {
    && (!stop && ch.reader.Gone? ==> End in ch.sent)
    && (End in ch.sent ==> ch.reader.Gone? && ch.sent[|ch.sent| - 1] == End)
    && (forall i :: 0 <= i < |ch.sent| - 1 ==> ch.sent[i] != End)
    && (!stop && (ch.reader == Sending(End) || ch.reader.Gone?) ==> ch.eof || Fault in ch.sent)
    && (End in ch.taken ==> ch.read == Bytes(ch.taken) && (ch.eof || Fault in ch.taken))
  }

  ghost predicate RetainedOk(ch: Channel, limit: nat) {
    ch.retained == Truncate(Bytes(ch.taken), limit) && (ch.truncated <==> |Bytes(ch.taken)| > limit)
  }

  /** Nothing is lost or reordered between the pipe, the queue and the main thread. */
  ghost predicate ChannelOk(ch: Channel, queued: seq<Item>, stop: bool, limit: nat) {
    && ch.sent == ch.taken + queued
    && (!stop ==> ch.read == Bytes(ch.sent) + HeldBytes(ch.reader))
    && SentinelOk(ch, stop)
    && RetainedOk(ch, limit)
    && (ch.reader.Unstarted? ==> ch.sent == [] && ch.read == [])
  }

  ghost predicate ChannelsOk(channels: Channels, queue: seq<(Stream, Item)>, stop: bool, limit: nat) {
    && ChannelOk(channels.stdout, ItemsFor(queue, Stdout), stop, limit)
    && ChannelOk(channels.stderr, ItemsFor(queue, Stderr), stop, limit)
  }

  lemma {:induction false} PutKeepsSentinel(ch: Channel, queued: seq<Item>, stop: bool, limit: nat)
    requires ChannelOk(ch, queued, stop, limit) && ch.reader.Sending?
    ensures SentinelOk(AfterPut(ch), stop)
  {
    var item := ch.reader.item;
    assert End !in ch.sent;
    assert forall i :: 0 <= i < |ch.sent| ==> ch.sent[i] != End;
    assert item in ch.sent + [item] && forall x :: x in ch.sent + [item] <==> x in ch.sent || x == item;
    assert End !in ch.taken;
  }

  lemma {:induction false} PutKeepsChannel(ch: Channel, queued: seq<Item>, stop: bool, limit: nat)
    requires ChannelOk(ch, queued, stop, limit) && ch.reader.Sending?
    ensures ChannelOk(AfterPut(ch), queued + [ch.reader.item], stop, limit)
  {
    var item, after := ch.reader.item, AfterPut(ch);
    PutKeepsSentinel(ch, queued, stop, limit);
    BytesAppend(ch.sent, item);
    assert after.sent == ch.taken + (queued + [item]);
    assert HeldBytes(after.reader) == [] && HeldBytes(ch.reader) == if item.Data? then item.bytes else [];
    assert RetainedOk(after, limit);
  }

  lemma {:induction false} ReaderKeepsChannel(
      ch: Channel, a: Action, queued: seq<Item>, stop: bool, room: bool, limit: nat, ch': Channel)
    requires ChannelOk(ch, queued, stop, limit) && IsReaderAction(a) && ReaderEffect(ch, a, stop, room) == Some(ch')
    ensures ChannelOk(ch', if a.ReaderPuts? then queued + [ch.reader.item] else queued, stop, limit)
    ensures ch'.taken == ch.taken && (ch'.reader.Unstarted? <==> ch.reader.Unstarted?) && !Finished(ch)
  {
    if a.ReaderPuts? { PutKeepsChannel(ch, queued, stop, limit); }
  }

  /** Once the main thread holds the sentinel, it holds everything. */
  lemma {:induction false} SentinelIsLast(taken: seq<Item>, item: Item, queued: seq<Item>, sent: seq<Item>)
    requires sent == taken + [item] + queued
    requires forall i :: 0 <= i < |sent| - 1 ==> sent[i] != End
    ensures End in taken + [item] ==> queued == [] && taken + [item] == sent
    ensures End !in taken
  {
    var done := taken + [item];
    forall i | 0 <= i < |done| && (queued != [] || i < |taken|) ensures done[i] != End {
      assert sent[i] == done[i];
    }
    forall i | 0 <= i < |taken| ensures taken[i] != End {
      assert done[i] == taken[i];
    }
  }

  lemma {:induction false} HandleRetains(ch: Channel, item: Item, limit: nat)
    requires RetainedOk(ch, limit)
    ensures RetainedOk(Handle(ch, item, limit), limit)
  {
    BytesAppend(ch.taken, item);
    if item.Data? && |ch.retained| < limit {
      var all := Bytes(ch.taken) + item.bytes;
      assert limit < |all| ==> all[..limit] == Bytes(ch.taken) + item.bytes[..limit - |ch.retained|];
    } else if item.Data? {
      var all := Bytes(ch.taken) + item.bytes;
      assert limit <= |all| ==> all[..limit] == Bytes(ch.taken)[..limit];
    }
  }

  lemma {:induction false} HandleKeepsChannel(ch: Channel, item: Item, queued: seq<Item>, limit: nat)
    requires ChannelOk(ch, [item] + queued, false, limit)
    ensures ChannelOk(Handle(ch, item, limit), queued, false, limit)
    ensures End !in ch.taken && !ch.reader.Unstarted?
  {
    assert ch.taken + ([item] + queued) == ch.taken + [item] + queued;
    SentinelIsLast(ch.taken, item, queued, ch.sent);
    HandleRetains(ch, item, limit);
    HandleKeepsSentinel(ch, item, queued, limit);
  }

  lemma {:induction false} HandleKeepsSentinel(ch: Channel, item: Item, queued: seq<Item>, limit: nat)
    requires SentinelOk(ch, false) && ch.read == Bytes(ch.sent) + HeldBytes(ch.reader)
    requires End in ch.taken + [item] ==> queued == [] && ch.taken + [item] == ch.sent
    ensures SentinelOk(Handle(ch, item, limit), false)
  {}

  lemma {:induction false} StopKeepsChannel(ch: Channel, queued: seq<Item>, limit: nat)
    requires ChannelOk(ch, queued, false, limit)
    ensures ChannelOk(ch, queued, true, limit)
  {
  }

  // ----- the invariants of the main thread -----

  ghost predicate InLoop(pc: Pc) {
    pc.Starting? || pc.Head? || pc.Get?
  }

  /** The tree is killed once; a second attempt is made only if the first one raised. */
  ghost predicate KillOk(m: Main) {
    && (InLoop(m.pc) || m.pc.FinKill? ==> m.kills == if m.ended || m.killBroken then 1 else 0)
    && (!InLoop(m.pc) && !m.pc.FinKill? ==> m.kills == if m.killBroken then 2 else 1)
    && (m.killBroken ==> !m.ended && m.raised.Some?)
  }

  /** The two deadlines bound the clock, and the clock bounds the turns of the loop. */
  ghost predicate TimeOk(cfg: Config, m: Main) {
    && m.now >= cfg.started + m.heads
    && (!m.ended ==> m.deadline == cfg.started + cfg.timeout)
    && (m.ended ==> m.deadline < cfg.started + cfg.timeout + cfg.delta + cfg.cleanup)
    && (InLoop(m.pc) ==> m.now < m.deadline)
    && m.now < cfg.started + cfg.timeout + cfg.cleanup + 2 * cfg.delta
  }

  /** An upper bound on main-thread steps beyond two for every completed turn. */
  function TurnSteps(pc: Pc): nat {
    match pc
    case Starting(k) => k
    case Head => 3
    case Get => 2
    case FinKill => 4
    case FinWait => 5
    case FinStop => 6
    case FinJoin => 7
    case Done(_) => 8
  }

  /** Leaving the `finally` block without an exception takes a drained queue, a finished child and a wait. */
  ghost predicate PhaseOk(cfg: Config, m: Main) {
    && (m.pc.Starting? ==> m.pc.k <= |cfg.streams|)
    && (InLoop(m.pc) ==> m.raised.None?)
    && (m.raised.None? && !InLoop(m.pc) ==> m.pending == 0 && m.ended)
    && (m.raised.None? && (m.pc.FinStop? || m.pc.FinJoin? || m.pc.Done?) ==> m.wait.Reaped?)
    && (m.pc == Done(Returned) ==> m.raised.None?)
    && (m.pc.Done? && m.pc.outcome.Raised? ==> m.raised.Some? || m.pc.outcome.failure.ReaderAlive?)
    && m.steps <= 2 * m.heads + TurnSteps(m.pc)
  }

  /** The `finally` block waits for the child unless its own kill failed or the wait expired, and then it says so. */
  ghost predicate CleanupOk(m: Main) {
    && (InLoop(m.pc) || m.pc.FinKill? || m.pc.FinWait? <==> m.wait.NotYet?)
    && (m.wait.KillFailed? ==> m.raised == Some(KillRaised) || m.raised == Some(Interrupted))
    && (m.wait.Expired? ==> m.raised == Some(WaitExpired))
    && (m.pc.Done? ==> m.pc.outcome == OutcomeOf(m.raised) || m.pc.outcome == Raised(ReaderAlive))
  }

  function OutcomeOf(raised: Option<Failure>): Outcome {
    match raised case None => Returned case Some(f) => Raised(f)
  }

  ghost predicate OwnOk(cfg: Config, m: Main) {
    KillOk(m) && TimeOk(cfg, m) && PhaseOk(cfg, m) && CleanupOk(m)
  }

  lemma {:induction false} IterateOk(cfg: Config, m: Main, exited: bool, elapsed: int, kill: Option<Failure>)
    requires cfg.Ok() && OwnOk(cfg, m) && m.pc.Head? && (m.pending != 0 || !m.ended) && 1 <= elapsed <= cfg.delta
    ensures OwnOk(cfg, IterateMain(cfg, m, exited, elapsed, kill).(steps := m.steps + 1))
  {
    var m' := IterateMain(cfg, m, exited, elapsed, kill);
    assert KillOk(m');
    assert TimeOk(cfg, m');
  }

  lemma {:induction false} OtherOk(
      cfg: Config, m: Main, exited: bool, queueEmpty: bool, allGone: bool, a: Action, m': Main)
    requires cfg.Ok() && OwnOk(cfg, m) && OwnStep(cfg, m, exited, queueEmpty, allGone, a) == Some(m') && !a.Iterate?
    ensures OwnOk(cfg, m'.(steps := m.steps + 1))
  {
    match a {
      case StartRaises => RaiseOk(cfg, m, StartFailed);
      case Interrupt => RaiseOk(cfg, m, Interrupted);
      case Kill(kill) => KillStepOk(cfg, m, kill);
      case EnterLoop => case LeaveLoop => case TakeNothing => case Wait(_) => case Join => case _ =>
    }
  }

  lemma {:induction false} RaiseOk(cfg: Config, m: Main, failure: Failure)
    requires cfg.Ok() && OwnOk(cfg, m) && InLoop(m.pc)
    ensures OwnOk(cfg, Raise(m, failure).(steps := m.steps + 1))
  {}

  lemma {:induction false} KillStepOk(cfg: Config, m: Main, kill: Option<Failure>)
    requires OwnOk(cfg, m) && m.pc.FinKill? && KillMayEnd(kill)
    ensures OwnOk(cfg, KillMain(cfg, m, kill).(steps := m.steps + 1))
  {}

  lemma {:induction false} OwnStepOk(
      cfg: Config, m: Main, exited: bool, queueEmpty: bool, allGone: bool, a: Action, m': Main)
    requires cfg.Ok() && OwnOk(cfg, m) && OwnStep(cfg, m, exited, queueEmpty, allGone, a) == Some(m')
    ensures OwnOk(cfg, m'.(steps := m.steps + 1))
  {
    if a.Iterate? {
      IterateOk(cfg, m, exited, a.elapsed, a.kill);
    } else {
      OtherOk(cfg, m, exited, queueEmpty, allGone, a, m');
    }
  }

  lemma {:induction false} OwnStepLinks(
      cfg: Config, m: Main, exited: bool, queueEmpty: bool, allGone: bool, a: Action, m': Main)
    requires PhaseOk(cfg, m) && OwnStep(cfg, m, exited, queueEmpty, allGone, a) == Some(m')
    ensures m'.pending == m.pending && !m'.pc.Starting? && (m'.wait.Reaped? ==> m.wait.Reaped? || exited)
    ensures m'.raised.None? ==> m.raised.None?
    ensures m.pc.Starting? && m'.raised.None? ==> m.pc.k >= |cfg.streams|
    ensures m'.pc == Done(Returned) ==> allGone
    ensures m'.pc.FinJoin? || m'.pc.Done? <==> m.pc.FinJoin?
    ensures !m.pc.Done?
  {
    match a {
      case Iterate(elapsed, kill) => IterateLinks(cfg, m, exited, elapsed, kill);
      case Kill(kill) => KillLinks(cfg, m, kill);
      case StartRaises => case EnterLoop => case LeaveLoop => case TakeNothing => case Interrupt =>
      case Wait(_) => case Join => case _ =>
    }
  }

  lemma {:induction false} IterateLinks(cfg: Config, m: Main, exited: bool, elapsed: int, kill: Option<Failure>)
    ensures var m' := IterateMain(cfg, m, exited, elapsed, kill);
      && m'.pending == m.pending && (m'.wait.Reaped? ==> m.wait.Reaped?) && (m'.pc.Get? || m'.pc.FinKill?)
      && (m'.raised.None? ==> m.raised.None?)
  {}

  lemma {:induction false} KillLinks(cfg: Config, m: Main, kill: Option<Failure>)
    ensures var m' := KillMain(cfg, m, kill);
      && m'.pending == m.pending && (m'.wait.Reaped? ==> m.wait.Reaped?) && (m'.pc.FinWait? || m'.pc.FinStop?)
      && (m'.raised.None? ==> m.raised.None?)
  {}

  // ----- what ties the main thread to the channels -----

  function Open(ch: Channel): int {
    if !ch.reader.Unstarted? && End !in ch.taken then 1 else 0
  }

  /** Threads start in stream order, and all of them before the loop begins. */
  ghost predicate StartedOk(cfg: Config, m: Main, ch: Channel, s: Stream) {
    && (s !in cfg.streams ==> ch.reader.Unstarted?)
    && (m.pc.Starting? ==> forall i :: 0 <= i < |cfg.streams| && cfg.streams[i] == s ==>
          (ch.reader.Unstarted? <==> i >= m.pc.k))
    && (!m.pc.Starting? && m.raised.None? && s in cfg.streams ==> !ch.reader.Unstarted?)
  }

  ghost predicate LinkOk(cfg: Config, st: State) {
    && (st.stop <==> st.main.pc.FinJoin? || st.main.pc.Done?)
    && (st.main.wait.Reaped? ==> st.exited)
    && st.main.pending == Open(st.channels.stdout) + Open(st.channels.stderr)
    && (st.main.raised.None? ==> Fault !in st.channels.stdout.taken && Fault !in st.channels.stderr.taken)
    && (st.main.pc == Done(Returned) ==> Finished(st.channels.stdout) && Finished(st.channels.stderr))
    && StartedOk(cfg, st.main, st.channels.stdout, Stdout)
    && StartedOk(cfg, st.main, st.channels.stderr, Stderr)
  }

  ghost predicate Inv(cfg: Config, st: State) {
    && ChannelsOk(st.channels, st.queue, st.stop, cfg.limit)
    && OwnOk(cfg, st.main)
    && LinkOk(cfg, st)
    && |st.queue| <= QUEUE_SIZE
  }

  // ----- every action keeps the invariant -----

  lemma {:induction false} InitialOk(cfg: Config)
    requires cfg.Ok()
    ensures Inv(cfg, Initial(cfg))
  {
  }

  lemma {:induction false} AppendedFor(queue: seq<(Stream, Item)>, s: Stream, item: Item)
    ensures ItemsFor(queue + [(s, item)], s) == ItemsFor(queue, s) + [item]
    ensures forall o :: o != s ==> ItemsFor(queue + [(s, item)], o) == ItemsFor(queue, o)
  {
    forall o: Stream { ItemsForAppend(queue, (s, item), o); }
  }

  lemma {:induction false} Together(
      cfg: Config, st: State, channels: Channels, queue: seq<(Stream, Item)>, stop: bool, main: Main)
    requires st == State(main, st.exited, stop, queue, channels)
    requires ChannelsOk(channels, queue, stop, cfg.limit) && OwnOk(cfg, main) && LinkOk(cfg, st)
    requires |queue| <= QUEUE_SIZE
    ensures Inv(cfg, st)
  {}

  /** Replacing one channel: what the other one needs is that its items are still queued. */
  lemma {:induction false} OneChannel(
      st: State, s: Stream, next: Channel, queue: seq<(Stream, Item)>, limit: nat)
    requires ChannelsOk(st.channels, st.queue, st.stop, limit)
    requires ChannelOk(next, ItemsFor(queue, s), st.stop, limit)
    requires forall o :: o != s ==> ItemsFor(queue, o) == ItemsFor(st.queue, o)
    ensures ChannelsOk(st.channels.With(s, next), queue, st.stop, limit)
  {
    assert s == Stdout || s == Stderr;
  }

  /** A channel that looks the same to the main thread keeps the link. */
  lemma {:induction false} SameLink(cfg: Config, st: State, s: Stream, next: Channel, queue: seq<(Stream, Item)>)
    requires LinkOk(cfg, st)
    requires var ch := st.channels.At(s);
      next.taken == ch.taken && (next.reader.Unstarted? <==> ch.reader.Unstarted?) && !Finished(ch)
    ensures LinkOk(cfg, st.(channels := st.channels.With(s, next), queue := queue))
  {
    assert s == Stdout || s == Stderr;
  }

  lemma {:induction false} ReaderKeepsInv(cfg: Config, st: State, a: Action, st': State)
    requires Inv(cfg, st) && IsReaderAction(a) && ReaderStep(st, a) == Some(st')
    ensures Inv(cfg, st')
  {
    var ch, queued := st.channels.At(a.s), ItemsFor(st.queue, a.s);
    var room := |st.queue| < QUEUE_SIZE;
    var next := ReaderEffect(ch, a, st.stop, room).value;
    ReaderKeepsChannel(ch, a, queued, st.stop, room, cfg.limit, next);
    if a.ReaderPuts? { AppendedFor(st.queue, a.s, ch.reader.item); }
    OneChannel(st, a.s, next, st'.queue, cfg.limit);
    SameLink(cfg, st, a.s, next, st'.queue);
    Together(cfg, st', st.channels.With(a.s, next), st'.queue, st.stop, st.main);
  }

  lemma {:induction false} TakenFrom(queue: seq<(Stream, Item)>)
    requires queue != []
    ensures ItemsFor(queue, queue[0].0) == [queue[0].1] + ItemsFor(queue[1..], queue[0].0)
    ensures forall o :: o != queue[0].0 ==> ItemsFor(queue[1..], o) == ItemsFor(queue, o)
  {
  }

  lemma {:induction false} TakeKillOk(m: Main, item: Item, raises: bool)
    requires KillOk(m) && m.pc.Get?
    ensures KillOk(TakeMain(m, item, raises))
  {}

  lemma {:induction false} TakeTimeOk(cfg: Config, m: Main, item: Item, raises: bool)
    requires TimeOk(cfg, m) && m.pc.Get?
    ensures TimeOk(cfg, TakeMain(m, item, raises))
  {}

  lemma {:induction false} TakePhaseOk(cfg: Config, m: Main, item: Item, raises: bool)
    requires PhaseOk(cfg, m) && m.pc.Get?
    ensures PhaseOk(cfg, TakeMain(m, item, raises).(steps := m.steps + 1))
  {}

  lemma {:induction false} TakeMainOk(cfg: Config, m: Main, item: Item, raises: bool)
    requires OwnOk(cfg, m) && m.pc.Get?
    ensures OwnOk(cfg, TakeMain(m, item, raises).(steps := m.steps + 1))
  {
    TakeKillOk(m, item, raises);
    TakeTimeOk(cfg, m, item, raises);
    TakePhaseOk(cfg, m, item, raises);
  }

  lemma {:induction false} TakeKeepsLink(
      cfg: Config, m: Main, ch: Channel, item: Item, raises: bool, queued: seq<Item>, s: Stream)
    requires ChannelOk(ch, [item] + queued, false, cfg.limit) && m.pc.Get? && StartedOk(cfg, m, ch, s)
    ensures
      var m', ch' := TakeMain(m, item, raises), Handle(ch, item, cfg.limit);
      && ChannelOk(ch', queued, false, cfg.limit) && StartedOk(cfg, m', ch', s)
      && m'.pending - Open(ch') == m.pending - Open(ch)
      && (m'.raised.None? && Fault !in ch.taken ==> Fault !in ch'.taken)
  {
    HandleKeepsChannel(ch, item, queued, cfg.limit);
    var ch' := Handle(ch, item, cfg.limit);
    assert ch'.taken == ch.taken + [item] && ch'.reader == ch.reader;
    assert Open(ch) == 1 && Open(ch') == if item.End? then 0 else 1;
  }

  lemma {:induction false} OtherKeepsLink(cfg: Config, m: Main, m': Main, ch: Channel, s: Stream)
    requires StartedOk(cfg, m, ch, s) && !m.pc.Starting? && !m'.pc.Starting? && (m'.raised.None? ==> m.raised.None?)
    ensures StartedOk(cfg, m', ch, s)
  {
  }

  /** Taking the first item of the queue, said for its stream and the other one. */
  lemma {:induction false} TakeKeepsBoth(
      cfg: Config, st: State, raises: bool, item: Item, s: Stream, queued: seq<Item>, other: Stream, st': State)
    requires LinkOk(cfg, st) && st.main.pc.Get? && other != s
    requires ChannelOk(st.channels.At(s), [item] + queued, st.stop, cfg.limit)
    requires st'.stop == st.stop && st'.exited == st.exited && st'.main == TakeMain(st.main, item, raises)
    requires st'.channels == st.channels.With(s, Handle(st.channels.At(s), item, cfg.limit))
    ensures ChannelOk(st'.channels.At(s), queued, st.stop, cfg.limit)
    ensures LinkOk(cfg, st')
  {
    assert !st.stop;
    TakeKeepsLink(cfg, st.main, st.channels.At(s), item, raises, queued, s);
    OtherKeepsLink(cfg, st.main, st'.main, st.channels.At(other), other);
  }

  lemma {:induction false} ChannelAt(channels: Channels, queue: seq<(Stream, Item)>, stop: bool, limit: nat, s: Stream)
    requires ChannelsOk(channels, queue, stop, limit)
    ensures ChannelOk(channels.At(s), ItemsFor(queue, s), stop, limit)
  {
    match s case Stdout => case Stderr =>
  }

  lemma {:induction false} TakeKeepsInv(cfg: Config, st: State, raises: bool, st': State)
    requires cfg.Ok() && Inv(cfg, st) && MainStep(cfg, st, Take(raises)) == Some(st')
    ensures Inv(cfg, st'.(main := st'.main.(steps := st.main.steps + 1)))
  {
    var (s, item) := st.queue[0];
    TakeKeepsParts(cfg, st, raises, s, item, st.channels.With(s, Handle(st.channels.At(s), item, cfg.limit)),
                   TakeMain(st.main, item, raises), st');
  }

  lemma {:induction false} TakeKeepsParts(
      cfg: Config, st: State, raises: bool, s: Stream, item: Item, channels: Channels, m: Main, st': State)
    requires cfg.Ok() && Inv(cfg, st) && st.main.pc.Get? && st.queue != [] && st.queue[0] == (s, item)
    requires channels == st.channels.With(s, Handle(st.channels.At(s), item, cfg.limit))
    requires m == TakeMain(st.main, item, raises)
    requires st' == State(m, st.exited, st.stop, st.queue[1..], channels)
    ensures Inv(cfg, st'.(main := m.(steps := st.main.steps + 1)))
  {
    assert !st.stop;
    TakeKeepsChannels(st, s, item, cfg.limit);
    TakeKeepsLinks(cfg, st, raises, s, item, st');
    TakeMainOk(cfg, st.main, item, raises);
    Together(cfg, st'.(main := m.(steps := st.main.steps + 1)), channels, st.queue[1..], st.stop,
             m.(steps := st.main.steps + 1));
  }

  lemma {:induction false} TakeKeepsLinks(cfg: Config, st: State, raises: bool, s: Stream, item: Item, st': State)
    requires ChannelsOk(st.channels, st.queue, st.stop, cfg.limit) && LinkOk(cfg, st)
    requires st.main.pc.Get? && st.queue != [] && st.queue[0] == (s, item)
    requires st' == State(TakeMain(st.main, item, raises), st.exited, st.stop, st.queue[1..],
                          st.channels.With(s, Handle(st.channels.At(s), item, cfg.limit)))
    ensures LinkOk(cfg, st'.(main := st'.main.(steps := st.main.steps + 1)))
  {
    TakenFrom(st.queue);
    ChannelAt(st.channels, st.queue, st.stop, cfg.limit, s);
    TakeKeepsBoth(cfg, st, raises, item, s, ItemsFor(st.queue[1..], s), if s == Stdout then Stderr else Stdout, st');
    StepsAreFree(cfg, st', st.main.steps + 1);
  }

  lemma {:induction false} TakeKeepsChannels(st: State, s: Stream, item: Item, limit: nat)
    requires ChannelsOk(st.channels, st.queue, st.stop, limit) && !st.stop && st.queue != [] && st.queue[0] == (s, item)
    ensures ChannelsOk(st.channels.With(s, Handle(st.channels.At(s), item, limit)), st.queue[1..], st.stop, limit)
  {
    TakenFrom(st.queue);
    ChannelAt(st.channels, st.queue, st.stop, limit, s);
    HandleKeepsChannel(st.channels.At(s), item, ItemsFor(st.queue[1..], s), limit);
    OneChannel(st, s, Handle(st.channels.At(s), item, limit), st.queue[1..], limit);
  }

  /** Counting a step changes nothing that the channels or their links depend on. */
  lemma {:induction false} StepsAreFree(cfg: Config, st: State, steps: nat)
    requires LinkOk(cfg, st)
    ensures LinkOk(cfg, st.(main := st.main.(steps := steps)))
  {
  }

  lemma {:induction false} StartKeepsChannel(ch: Channel, queued: seq<Item>, stop: bool, limit: nat)
    requires ChannelOk(ch, queued, stop, limit) && ch.reader.Unstarted?
    ensures ChannelOk(ch.(reader := Reading), queued, stop, limit)
    ensures Open(ch) == 0 && Open(ch.(reader := Reading)) == 1
  {
  }

  lemma {:induction false} StartMainOk(cfg: Config, m: Main)
    requires cfg.Ok() && OwnOk(cfg, m) && m.pc.Starting? && m.pc.k < |cfg.streams|
    ensures OwnOk(cfg, m.(pc := Starting(m.pc.k + 1), pending := m.pending + 1, steps := m.steps + 1))
  {
  }

  lemma {:induction false} StartKeepsStarted(cfg: Config, m: Main, ch: Channel, s: Stream, m': Main, ch': Channel)
    requires cfg.Ok() && m.pc.Starting? && m.pc.k < |cfg.streams| && StartedOk(cfg, m, ch, s)
    requires m'.pc == Starting(m.pc.k + 1) && m'.raised == m.raised
    requires ch' == if s == cfg.streams[m.pc.k] then ch.(reader := Reading) else ch
    ensures s == cfg.streams[m.pc.k] ==> ch.reader.Unstarted?
    ensures StartedOk(cfg, m', ch', s)
  {}

  lemma {:induction false} StartKeepsLink(cfg: Config, st: State, s: Stream, st': State)
    requires cfg.Ok() && LinkOk(cfg, st) && ChannelOk(st.channels.At(s), ItemsFor(st.queue, s), st.stop, cfg.limit)
    requires st.main.pc.Starting? && st.main.pc.k < |cfg.streams| && s == cfg.streams[st.main.pc.k]
    requires st'.main.pc == Starting(st.main.pc.k + 1) && st'.main.pending == st.main.pending + 1
    requires st'.main.raised == st.main.raised && st'.main.wait == st.main.wait && st'.exited == st.exited
    requires st'.channels == st.channels.With(s, st.channels.At(s).(reader := Reading)) && st'.stop == st.stop
    ensures st.channels.At(s).reader.Unstarted?
    ensures LinkOk(cfg, st')
  {
    StartKeepsStarted(cfg, st.main, st.channels.stdout, Stdout, st'.main, st'.channels.stdout);
    StartKeepsStarted(cfg, st.main, st.channels.stderr, Stderr, st'.main, st'.channels.stderr);
    StartKeepsChannel(st.channels.At(s), ItemsFor(st.queue, s), st.stop, cfg.limit);
  }

  lemma {:induction false} StartKeepsChannels(st: State, s: Stream, limit: nat)
    requires ChannelsOk(st.channels, st.queue, st.stop, limit) && st.channels.At(s).reader.Unstarted?
    ensures ChannelsOk(st.channels.With(s, st.channels.At(s).(reader := Reading)), st.queue, st.stop, limit)
  {
    ChannelAt(st.channels, st.queue, st.stop, limit, s);
    StartKeepsChannel(st.channels.At(s), ItemsFor(st.queue, s), st.stop, limit);
    OneChannel(st, s, st.channels.At(s).(reader := Reading), st.queue, limit);
  }

  lemma {:induction false} StartKeepsParts(cfg: Config, st: State, s: Stream, st': State)
    requires cfg.Ok() && ChannelsOk(st.channels, st.queue, st.stop, cfg.limit) && OwnOk(cfg, st.main) && LinkOk(cfg, st)
    requires st.main.pc.Starting? && st.main.pc.k < |cfg.streams| && s == cfg.streams[st.main.pc.k]
    requires st' == State(
      st.main.(pc := Starting(st.main.pc.k + 1), pending := st.main.pending + 1, steps := st.main.steps + 1),
      st.exited, st.stop, st.queue, st.channels.With(s, st.channels.At(s).(reader := Reading)))
    requires |st.queue| <= QUEUE_SIZE
    ensures Inv(cfg, st')
  {
    ChannelAt(st.channels, st.queue, st.stop, cfg.limit, s);
    StartKeepsLink(cfg, st, s, st');
    StartKeepsChannels(st, s, cfg.limit);
    StartMainOk(cfg, st.main);
    Together(cfg, st', st'.channels, st.queue, st.stop, st'.main);
  }

  lemma {:induction false} StartKeepsInv(cfg: Config, st: State, st': State)
    requires cfg.Ok() && Inv(cfg, st) && MainStep(cfg, st, StartReader) == Some(st')
    ensures Inv(cfg, st'.(main := st'.main.(steps := st.main.steps + 1)))
  {
    var s := cfg.streams[st.main.pc.k];
    StartKeepsParts(cfg, st, s, st'.(main := st'.main.(steps := st.main.steps + 1)));
  }

  lemma {:induction false} OwnKeepsLink(cfg: Config, st: State, m: Main)
    requires LinkOk(cfg, st) && m.pending == st.main.pending && !m.pc.Starting? && !st.main.pc.Done?
    requires m.raised.None? ==> st.main.raised.None?
    requires st.main.pc.Starting? && m.raised.None? ==> st.main.pc.k >= |cfg.streams|
    requires m.pc == Done(Returned) ==> Finished(st.channels.stdout) && Finished(st.channels.stderr)
    requires m.pc.FinJoin? || m.pc.Done? <==> st.main.pc.FinJoin?
    requires m.wait.Reaped? ==> st.main.wait.Reaped? || st.exited
    ensures LinkOk(cfg, st.(main := m))
  {}

  lemma {:induction false} OwnKeepsInv(cfg: Config, st: State, a: Action, m: Main, st': State)
    requires cfg.Ok() && |st.queue| <= QUEUE_SIZE
    requires ChannelsOk(st.channels, st.queue, st.stop, cfg.limit) && OwnOk(cfg, st.main) && LinkOk(cfg, st)
    requires OwnStep(cfg, st.main, st.exited, st.queue == [],
                     Finished(st.channels.stdout) && Finished(st.channels.stderr), a) == Some(m)
    requires st' == State(m.(steps := st.main.steps + 1), st.exited, st.stop, st.queue, st.channels)
    ensures Inv(cfg, st')
  {
    OwnKeepsLinks(cfg, st, a, m, st');
    OwnStepOk(cfg, st.main, st.exited, st.queue == [],
              Finished(st.channels.stdout) && Finished(st.channels.stderr), a, m);
    Together(cfg, st', st.channels, st.queue, st.stop, m.(steps := st.main.steps + 1));
  }

  lemma {:induction false} OwnKeepsLinks(cfg: Config, st: State, a: Action, m: Main, st': State)
    requires PhaseOk(cfg, st.main) && LinkOk(cfg, st)
    requires OwnStep(cfg, st.main, st.exited, st.queue == [],
                     Finished(st.channels.stdout) && Finished(st.channels.stderr), a) == Some(m)
    requires st' == State(m.(steps := st.main.steps + 1), st.exited, st.stop, st.queue, st.channels)
    ensures LinkOk(cfg, st')
  {
    var gone := Finished(st.channels.stdout) && Finished(st.channels.stderr);
    OwnStepLinks(cfg, st.main, st.exited, st.queue == [], gone, a, m);
    OwnKeepsLink(cfg, st, m);
    StepsAreFree(cfg, st.(main := m), st.main.steps + 1);
  }

  lemma {:induction false} StopMainOk(cfg: Config, m: Main)
    requires OwnOk(cfg, m) && m.pc.FinStop?
    ensures OwnOk(cfg, m.(pc := FinJoin, steps := m.steps + 1))
  {
  }

  lemma {:induction false} StopKeepsInv(cfg: Config, st: State, st': State)
    requires Inv(cfg, st) && MainStep(cfg, st, Stop) == Some(st')
    ensures Inv(cfg, st'.(main := st'.main.(steps := st.main.steps + 1)))
  {
    StopKeepsChannel(st.channels.stdout, ItemsFor(st.queue, Stdout), cfg.limit);
    StopKeepsChannel(st.channels.stderr, ItemsFor(st.queue, Stderr), cfg.limit);
    StopMainOk(cfg, st.main);
    StopKeepsLink(cfg, st);
    Together(cfg, st'.(main := st'.main.(steps := st.main.steps + 1)), st.channels, st.queue, true,
             st.main.(pc := FinJoin, steps := st.main.steps + 1));
  }

  lemma {:induction false} StopKeepsLink(cfg: Config, st: State)
    requires LinkOk(cfg, st) && st.main.pc.FinStop?
    ensures
      var main := st.main.(pc := FinJoin, steps := st.main.steps + 1);
      LinkOk(cfg, State(main, st.exited, true, st.queue, st.channels))
  {}

  lemma {:induction false} MainKeepsInv(cfg: Config, st: State, a: Action, next: State, st': State)
    requires cfg.Ok() && Inv(cfg, st) && MainStep(cfg, st, a) == Some(next)
    requires st' == next.(main := next.main.(steps := st.main.steps + 1))
    ensures Inv(cfg, st')
  {
    if a.StartReader? { StartKeepsInv(cfg, st, next); }
    else if a.Take? { TakeKeepsInv(cfg, st, a.callbackRaises, next); }
    else if a.Stop? { StopKeepsInv(cfg, st, next); }
    else { OwnKeepsInv(cfg, st, a, next.main, st'); }
  }

  lemma {:induction false} StepKeepsInv(cfg: Config, st: State, a: Action, st': State)
    requires cfg.Ok() && Inv(cfg, st) && Apply(cfg, st, a) == Some(st')
    ensures Inv(cfg, st')
  {
    if IsReaderAction(a) {
      ReaderKeepsInv(cfg, st, a, st');
    } else if a.ChildExits? {
      ExitKeepsInv(cfg, st);
    } else {
      MainMoves(cfg, st, a, st');
    }
  }

  lemma {:induction false} MainMoves(cfg: Config, st: State, a: Action, st': State)
    requires cfg.Ok() && Inv(cfg, st) && Apply(cfg, st, a) == Some(st') && !IsReaderAction(a) && !a.ChildExits?
    ensures Inv(cfg, st')
  {
    var next := MainPart(cfg, st, a, st');
    MainKeepsInv(cfg, st, a, next, st');
  }

  lemma {:induction false} MainPart(cfg: Config, st: State, a: Action, st': State) returns (next: State)
    requires Apply(cfg, st, a) == Some(st') && !IsReaderAction(a) && !a.ChildExits?
    ensures MainStep(cfg, st, a) == Some(next) && st' == next.(main := next.main.(steps := st.main.steps + 1))
  {
    next := MainStep(cfg, st, a).value;
  }

  lemma {:induction false} ExitKeepsInv(cfg: Config, st: State)
    requires Inv(cfg, st)
    ensures Inv(cfg, st.(exited := true))
  {
  }

  lemma {:induction false} RunKeepsInv(cfg: Config, actions: seq<Action>)
    requires cfg.Ok() && Run(cfg, actions).Some?
    ensures Inv(cfg, Run(cfg, actions).value)
  {
    if actions == [] {
      InitialOk(cfg);
    } else {
      var front := actions[..|actions| - 1];
      RunKeepsInv(cfg, front);
      StepKeepsInv(cfg, Run(cfg, front).value, actions[|actions| - 1], Run(cfg, actions).value);
    }
  }
}
