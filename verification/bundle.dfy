/**
 * The evidence bundle: write-once publication by up to two processes that may each fail, be interrupted or be killed
 * at any step. In local mode one process writes everything. In isolated mode a worker writes the run records and its
 * receipt, and a parent completes missing records and publishes the verdict, possibly while the worker still lives.
 */
module Bundle {
  import opened Wrappers

  datatype Mode = Local | Isolated

  datatype Who = Worker | Parent

  datatype Name = Reference | Candidate | Receipt | Report | Manifest | Verification

  datatype Status = Failed | TimedOut | Interrupted | Cancelled

  datatype Doc = Real(text: int) | Placeholder(status: Status, writer: Who)

  /** A directory entry's content; `whole` once everything has been written to it. */
  datatype File = File(doc: Doc, whole: bool)

  /** Published entries, and `.name.tmp` entries; a `linked` temporary shares its inode with the published entry. */
  datatype Files = Files(published: map<Name, File>, temps: map<Name, File>, linked: set<Name>)

  /** One `_write_atomic` in progress. */
  datatype Stage = Idle | Opened | Written | Linked

  datatype Proc = Proc(
    alive: bool,
    next: nat,                     // how far its program has come
    stage: Stage, doc: Doc,        // the write in progress
    interruptedAt: Option<nat>,    // worker: the first record missing when the interrupt was handled
    missing: bool,                 // parent: it has looked for its next record and not found it
    placed: bool)                  // parent: it has already written a placeholder

  datatype State = State(files: Files, worker: Proc, parent: Proc)

  /** What each process writes, in order. */
  function Program(mode: Mode, who: Who): seq<Name> {
    if who == Parent then [Reference, Candidate, Report, Manifest, Verification]
    else if mode == Local then [Reference, Candidate, Report, Manifest, Verification]
    else [Reference, Candidate, Receipt]
  }

  function Initial(mode: Mode): State {
    var idle := Proc(true, 0, Idle, Real(0), None, false, false);
    State(Files(map[], map[], {}), idle, idle.(alive := mode == Isolated))
  }

  function ProcOf(st: State, who: Who): Proc {
    if who == Worker then st.worker else st.parent
  }

  function With(st: State, who: Who, files: Files, p: Proc): State {
    if who == Worker then State(files, p, st.parent) else State(files, st.worker, p)
  }

  datatype Action =
    | Begin(who: Who, doc: Doc)        // create the temporary exclusively
    | Fill(who: Who)                   // write and close it
    | Link(who: Who)                   // publish it, unless the entry exists
    | Finish(who: Who, unlinked: bool) // remove the temporary (failures are ignored) and go on
    | Look                             // parent: the record does not exist yet
    | Skip                             // parent: the record already exists
    | DropReceipt                      // parent: remove the receipt
    | HandleInterrupt(unlinked: bool)  // worker: record the interruption, then write the missing records
    | Abort(who: Who, unlinked: bool)  // an exception ends the process after `_write_atomic` cleaned up
    | Die(who: Who)                    // a crash or kill, with everything left in place

  function Remove(files: Files, name: Name, really: bool): Files {
    if really then Files(files.published, files.temps - {name}, files.linked - {name}) else files
  }

  /** The documents a process may write at its current position. */
  predicate DocOk(p: Proc, who: Who, doc: Doc) {
    if p.next >= 2 then doc.Real?
    else if who == Worker then
      match p.interruptedAt
      case None => doc.Real?
      case Some(first) => doc == Placeholder(if p.next == first then Interrupted else Cancelled, Worker)
    else
      doc.Placeholder? && doc.writer == Parent && (doc.status == Cancelled <==> p.placed)
  }

  /** The temporary a process owns while a write is in progress. */
  function Owned(files: Files, p: Proc, name: Name, really: bool): Files {
    Remove(files, name, really && p.stage != Idle)
  }

  function Step(mode: Mode, st: State, a: Action): Option<State> {
    match a
    case Begin(who, doc) =>
      var p := ProcOf(st, who);
      if p.alive && p.stage == Idle && p.next < |Program(mode, who)| && DocOk(p, who, doc) then
        var name := Program(mode, who)[p.next];
        if name in st.files.temps || (who == Parent && p.next < 2 && !p.missing) then None
        else
          Some(With(st, who, st.files.(temps := st.files.temps[name := File(doc, false)]),
                    p.(stage := Opened, doc := doc)))
      else None
    case Fill(who) =>
      var p := ProcOf(st, who);
      if p.alive && p.stage == Opened && p.next < |Program(mode, who)| then
        var name := Program(mode, who)[p.next];
        var file := File(p.doc, true);
        var published := if name in st.files.linked then st.files.published[name := file] else st.files.published;
        Some(With(st, who, Files(published, st.files.temps[name := file], st.files.linked), p.(stage := Written)))
      else None
    case Link(who) =>
      var p := ProcOf(st, who);
      if p.alive && p.stage == Written && p.next < |Program(mode, who)| then
        var name := Program(mode, who)[p.next];
        if name in st.files.published || name !in st.files.temps then None
        else
          Some(With(st, who,
                    Files(st.files.published[name := st.files.temps[name]], st.files.temps, st.files.linked + {name}),
                    p.(stage := Linked)))
      else None
    case Finish(who, unlinked) =>
      var p := ProcOf(st, who);
      if p.alive && p.stage == Linked && p.next < |Program(mode, who)| then
        var name := Program(mode, who)[p.next];
        Some(With(st, who, Remove(st.files, name, unlinked),
                  p.(stage := Idle, next := p.next + 1, missing := false,
                     placed := p.placed || (who == Parent && p.next < 2))))
      else None
    case Look =>
      var p := st.parent;
      if p.alive && p.stage == Idle && p.next < 2 && Program(mode, Parent)[p.next] !in st.files.published then
        Some(st.(parent := p.(missing := true)))
      else None
    case Skip =>
      var p := st.parent;
      if p.alive && p.stage == Idle && p.next < 2 && !p.missing
         && Program(mode, Parent)[p.next] in st.files.published then
        Some(st.(parent := p.(next := p.next + 1)))
      else None
    case DropReceipt =>
      if st.parent.alive && st.parent.next >= 2 then
        Some(st.(files := Files(st.files.published - {Receipt}, st.files.temps, st.files.linked - {Receipt})))
      else None
    case HandleInterrupt(unlinked) =>
      var p := st.worker;
      if p.alive && p.next < 2 && p.interruptedAt.None? then
        Some(st.(files := Owned(st.files, p, Program(mode, Worker)[p.next], unlinked),
                 worker := p.(stage := Idle, interruptedAt := Some(p.next))))
      else None
    case Abort(who, unlinked) =>
      var p := ProcOf(st, who);
      if p.alive then
        var files :=
          if p.next < |Program(mode, who)| then Owned(st.files, p, Program(mode, who)[p.next], unlinked) else st.files;
        Some(With(st, who, files, p.(alive := false)))
      else None
    case Die(who) =>
      var p := ProcOf(st, who);
      if p.alive then Some(With(st, who, st.files, p.(alive := false))) else None
  }

  function Run(mode: Mode, actions: seq<Action>): Option<State> {
    if actions == [] then Some(Initial(mode))
    else
      match Run(mode, actions[..|actions| - 1])
      case None => None
      case Some(st) => Step(mode, st, actions[|actions| - 1])
  }

  // ----- the invariant -----

  /** Every published entry is whole. */
  ghost predicate FilesOk(files: Files) {
    && (forall n :: n in files.published ==> files.published[n].whole)
    && (forall n :: n in files.linked ==> n in files.published && n in files.temps)
  }

  predicate Writing(p: Proc) {
    p.alive && p.stage != Idle
  }

  /** A process in the middle of a write owns its temporary, and nothing published shares it before it is linked. */
  ghost predicate WriteOk(mode: Mode, files: Files, p: Proc, who: Who) {
    && p.next <= |Program(mode, who)|
    && (Writing(p) ==>
          p.next < |Program(mode, who)| && DocOk(p, who, p.doc) && Program(mode, who)[p.next] in files.temps)
    && (p.alive && p.stage in {Opened, Written} ==>
          && Program(mode, who)[p.next] !in files.linked
          && files.temps[Program(mode, who)[p.next]] == File(p.doc, p.stage == Written))
    && (p.alive && p.stage == Linked && Program(mode, who)[p.next] != Receipt ==>
          && Program(mode, who)[p.next] in files.published
          && files.published[Program(mode, who)[p.next]].doc == p.doc)
    && (forall i :: 0 <= i < p.next && Program(mode, who)[i] != Receipt ==> Program(mode, who)[i] in files.published)
  }

  /** Two processes never write the same entry at once: the exclusive temporary keeps them apart. */
  ghost predicate Apart(mode: Mode, st: State) {
    Writing(st.worker) && Writing(st.parent)
    && st.worker.next < |Program(mode, Worker)| && st.parent.next < |Program(mode, Parent)| ==>
      Program(mode, Worker)[st.worker.next] != Program(mode, Parent)[st.parent.next]
  }

  /** Entries appear in the order in which every process writes them. */
  ghost predicate OrderOk(files: Files) {
    && (Candidate in files.published ==> Reference in files.published)
    && (Report in files.published ==> Candidate in files.published)
    && (Manifest in files.published ==> Report in files.published)
    && (Verification in files.published ==> Manifest in files.published)
  }

  ghost predicate Inv(mode: Mode, st: State) {
    && FilesOk(st.files) && OrderOk(st.files)
    && |Program(mode, Worker)| >= st.worker.next && |Program(mode, Parent)| >= st.parent.next
    && WriteOk(mode, st.files, st.worker, Worker) && WriteOk(mode, st.files, st.parent, Parent)
    && Apart(mode, st)
  }

  lemma {:induction false} BeginKeepsInv(mode: Mode, st: State, who: Who, doc: Doc, st': State)
    requires Inv(mode, st) && Step(mode, st, Begin(who, doc)) == Some(st')
    ensures Inv(mode, st')
  {
  }

  lemma {:induction false} FillKeepsInv(mode: Mode, st: State, who: Who, st': State)
    requires Inv(mode, st) && Step(mode, st, Fill(who)) == Some(st')
    ensures Inv(mode, st')
    ensures st'.files.published == st.files.published
  {
  }

  lemma {:induction false} LinkKeepsOrder(mode: Mode, files: Files, p: Proc, who: Who, file: File)
    requires OrderOk(files) && WriteOk(mode, files, p, who) && p.next < |Program(mode, who)|
    ensures OrderOk(files.(published := files.published[Program(mode, who)[p.next] := file]))
  {
    var program := Program(mode, who);
    if p.next > 0 { assert program[p.next - 1] != Receipt ==> program[p.next - 1] in files.published; }
  }

  lemma {:induction false} LinkKeepsInv(mode: Mode, st: State, who: Who, st': State)
    requires Inv(mode, st) && Step(mode, st, Link(who)) == Some(st')
    ensures Inv(mode, st')
  {
    var p := ProcOf(st, who);
    LinkKeepsOrder(mode, st.files, p, who, st.files.temps[Program(mode, who)[p.next]]);
    assert OrderOk(st'.files);
  }

  /** Without one entry's temporary, a process that does not own it is as before. */
  lemma {:induction false} RemoveKeepsWrite(mode: Mode, files: Files, p: Proc, who: Who, name: Name, really: bool)
    requires WriteOk(mode, files, p, who)
    requires Writing(p) ==> Program(mode, who)[p.next] != name
    ensures WriteOk(mode, Remove(files, name, really), p, who)
  {}

  lemma {:induction false} RemoveKeepsFiles(files: Files, name: Name, really: bool)
    requires FilesOk(files) && OrderOk(files)
    ensures FilesOk(Remove(files, name, really)) && OrderOk(Remove(files, name, really))
  {}

  lemma {:induction false} FinishedOk(mode: Mode, files: Files, p: Proc, who: Who, p': Proc, name: Name, really: bool)
    requires WriteOk(mode, files, p, who) && p.alive && p.stage == Linked && name == Program(mode, who)[p.next]
    requires p' == p.(stage := Idle, next := p.next + 1, missing := false, placed := p'.placed)
    ensures WriteOk(mode, Remove(files, name, really), p', who)
  {}

  lemma {:induction false} FinishKeepsInv(mode: Mode, st: State, who: Who, unlinked: bool, st': State)
    requires Inv(mode, st) && Step(mode, st, Finish(who, unlinked)) == Some(st')
    ensures Inv(mode, st')
  {
    var p, name := ProcOf(st, who), Program(mode, who)[ProcOf(st, who).next];
    RemoveKeepsFiles(st.files, name, unlinked);
    FinishedOk(mode, st.files, p, who, ProcOf(st', who), name, unlinked);
    if who == Worker { RemoveKeepsWrite(mode, st.files, st.parent, Parent, name, unlinked); }
    else { RemoveKeepsWrite(mode, st.files, st.worker, Worker, name, unlinked); }
  }

  lemma {:induction false} LookKeepsInv(mode: Mode, st: State, st': State)
    requires Inv(mode, st) && Step(mode, st, Look) == Some(st')
    ensures Inv(mode, st')
  {
  }

  lemma {:induction false} SkipKeepsInv(mode: Mode, st: State, st': State)
    requires Inv(mode, st) && Step(mode, st, Skip) == Some(st')
    ensures Inv(mode, st')
  {
  }

  lemma {:induction false} DropKeepsInv(mode: Mode, st: State, st': State)
    requires Inv(mode, st) && Step(mode, st, DropReceipt) == Some(st')
    ensures Inv(mode, st')
  {
  }

  /** A process that no longer writes keeps only the record of what it has published. */
  lemma {:induction false} StoppedOk(mode: Mode, files: Files, p: Proc, who: Who, p': Proc, name: Name, really: bool)
    requires WriteOk(mode, files, p, who) && p'.next == p.next && !Writing(p')
    ensures WriteOk(mode, Remove(files, name, really), p', who)
  {}

  /** An interrupt or an exception: the write in progress is given up, and its temporary may go. */
  lemma {:induction false} GiveUpKeepsInv(
      mode: Mode, st: State, who: Who, really: bool, name: Name, st': State, p': Proc)
    requires Inv(mode, st) && !Writing(p') && p'.next == ProcOf(st, who).next
    requires really ==> Writing(ProcOf(st, who)) && name == Program(mode, who)[p'.next]
    requires st' == With(st, who, Remove(st.files, name, really), p')
    ensures Inv(mode, st')
  {
    RemoveKeepsFiles(st.files, name, really);
    StoppedOk(mode, st.files, ProcOf(st, who), who, p', name, really);
    if really {
      if who == Worker { RemoveKeepsWrite(mode, st.files, st.parent, Parent, name, really); }
      else { RemoveKeepsWrite(mode, st.files, st.worker, Worker, name, really); }
    }
  }

  lemma {:induction false} InterruptKeepsInv(mode: Mode, st: State, unlinked: bool, st': State)
    requires Inv(mode, st) && Step(mode, st, HandleInterrupt(unlinked)) == Some(st')
    ensures Inv(mode, st')
  {
    GiveUpKeepsInv(
      mode, st, Worker, unlinked && st.worker.stage != Idle, Program(mode, Worker)[st.worker.next], st', st'.worker);
  }

  lemma {:induction false} AbortKeepsInv(mode: Mode, st: State, who: Who, unlinked: bool, st': State)
    requires Inv(mode, st) && Step(mode, st, Abort(who, unlinked)) == Some(st')
    ensures Inv(mode, st')
  {
    var p := ProcOf(st, who);
    if p.next < |Program(mode, who)| {
      GiveUpKeepsInv(mode, st, who, unlinked && p.stage != Idle, Program(mode, who)[p.next], st', p.(alive := false));
    } else {
      GiveUpKeepsInv(mode, st, who, false, Reference, st', p.(alive := false));
    }
  }

  lemma {:induction false} DieKeepsInv(mode: Mode, st: State, who: Who, st': State)
    requires Inv(mode, st) && Step(mode, st, Die(who)) == Some(st')
    ensures Inv(mode, st')
  {
    GiveUpKeepsInv(mode, st, who, false, Reference, st', ProcOf(st, who).(alive := false));
  }

  lemma {:induction false} StepKeepsInv(mode: Mode, st: State, a: Action, st': State)
    requires Inv(mode, st) && Step(mode, st, a) == Some(st')
    ensures Inv(mode, st')
  {
    match a {
      case Begin(who, doc) => BeginKeepsInv(mode, st, who, doc, st');
      case Fill(who) => FillKeepsInv(mode, st, who, st');
      case Link(who) => LinkKeepsInv(mode, st, who, st');
      case Finish(who, unlinked) => FinishKeepsInv(mode, st, who, unlinked, st');
      case Look => LookKeepsInv(mode, st, st');
      case Skip => SkipKeepsInv(mode, st, st');
      case DropReceipt => DropKeepsInv(mode, st, st');
      case HandleInterrupt(unlinked) => InterruptKeepsInv(mode, st, unlinked, st');
      case Abort(who, unlinked) => AbortKeepsInv(mode, st, who, unlinked, st');
      case Die(who) => DieKeepsInv(mode, st, who, st');
    }
  }

  // ----- who wrote which record -----

  predicate ByParent(d: Doc) {
    d.Placeholder? && d.writer == Parent
  }

  /** What a process that has passed the first record knows about it. */
  ghost predicate Provenance(st: State) {
    var pub, w, p := st.files.published, st.worker, st.parent;
    && (w.interruptedAt.Some? ==> w.interruptedAt.value <= w.next)
    && (w.next >= 1 && Reference in pub ==>
          (pub[Reference].doc.Real? <==> w.interruptedAt != Some(0)))
    && (w.next >= 1 && Reference in pub && w.interruptedAt == Some(0) ==>
          pub[Reference].doc == Placeholder(Interrupted, Worker))
    && (p.next == 0 ==> !p.placed)
    && (p.alive && p.next == 0 && p.stage != Linked && Reference in pub ==> !ByParent(pub[Reference].doc))
    && (p.alive && p.next == 1 && Reference in pub ==> (ByParent(pub[Reference].doc) <==> p.placed))
  }

  /** How the two records may look together. */
  ghost predicate PairOk(pub: map<Name, File>) {
    && (Reference in pub && pub[Reference].doc.Placeholder? ==> pub[Reference].doc.status != Cancelled)
    && (Reference in pub && Candidate in pub ==>
          var r, c := pub[Reference].doc, pub[Candidate].doc;
          if r.Real? then c.Placeholder? ==> c.status != Cancelled
          else
            && c.Placeholder?
            && (c.status == Cancelled <==> c.writer == r.writer)
            && (c.writer != r.writer ==> r.writer == Worker))
  }

  ghost predicate Full(mode: Mode, st: State) {
    Inv(mode, st) && Provenance(st) && PairOk(st.files.published)
  }

  lemma {:induction false} LinkKeepsPair(mode: Mode, st: State, who: Who, st': State)
    requires Full(mode, st) && Step(mode, st, Link(who)) == Some(st')
    ensures PairOk(st'.files.published) && Provenance(st')
  {
    var p := ProcOf(st, who);
    var name := Program(mode, who)[p.next];
    assert st.files.temps[name].doc == p.doc && DocOk(p, who, p.doc);
    assert st.worker.next > 0 ==> Program(mode, Worker)[0] in st.files.published;
    assert st.parent.next > 0 ==> Program(mode, Parent)[0] in st.files.published;
    assert p.next == 0 <==> name == Reference;
    assert p.next == 1 <==> name == Candidate;
  }

  lemma {:induction false} FinishKeepsPair(mode: Mode, st: State, who: Who, unlinked: bool, st': State)
    requires Full(mode, st) && Step(mode, st, Finish(who, unlinked)) == Some(st')
    ensures PairOk(st'.files.published) && Provenance(st')
  {
    var p := ProcOf(st, who);
    assert st'.files.published == st.files.published;
    assert st.worker.next > 0 ==> Program(mode, Worker)[0] in st.files.published;
    assert st.parent.next > 0 ==> Program(mode, Parent)[0] in st.files.published;
    assert p.next == 0 ==> Program(mode, who)[0] == Reference;
  }

  lemma {:induction false} OthersKeepPair(mode: Mode, st: State, a: Action, st': State)
    requires Full(mode, st) && Step(mode, st, a) == Some(st') && !a.Link? && !a.Finish?
    ensures PairOk(st'.files.published) && Provenance(st')
  {
    OthersKeepRecords(mode, st, a, st');
    OthersKeepKnowledge(mode, st, a, st');
  }

  lemma {:induction false} OthersKeepRecords(mode: Mode, st: State, a: Action, st': State)
    requires Inv(mode, st) && Step(mode, st, a) == Some(st') && !a.Link? && !a.Finish?
    ensures forall n :: n in {Reference, Candidate} ==>
      (n in st'.files.published <==> n in st.files.published)
      && (n in st.files.published ==> st'.files.published[n] == st.files.published[n])
  {
    if a.Fill? { FillKeepsInv(mode, st, a.who, st'); }
  }

  lemma {:induction false} OthersKeepKnowledge(mode: Mode, st: State, a: Action, st': State)
    requires Full(mode, st) && Step(mode, st, a) == Some(st') && !a.Link? && !a.Finish?
    requires Reference in st'.files.published <==> Reference in st.files.published
    requires Reference in st.files.published ==> st'.files.published[Reference] == st.files.published[Reference]
    ensures Provenance(st')
  {
    match a {
      case Begin(_, _) => case Fill(_) => case Look => case Skip => case DropReceipt =>
      case HandleInterrupt(_) => case Abort(_, _) => case Die(_) =>
    }
  }

  lemma {:induction false} RunKeepsAll(mode: Mode, actions: seq<Action>)
    requires Run(mode, actions).Some?
    ensures Full(mode, Run(mode, actions).value)
  {
    if actions != [] {
      var front, a := actions[..|actions| - 1], actions[|actions| - 1];
      RunKeepsAll(mode, front);
      var st, st' := Run(mode, front).value, Run(mode, actions).value;
      StepKeepsInv(mode, st, a, st');
      match a {
        case Link(who) => LinkKeepsPair(mode, st, who, st');
        case Finish(who, unlinked) => FinishKeepsPair(mode, st, who, unlinked, st');
        case _ => OthersKeepPair(mode, st, a, st');
      }
    }
  }

  // ----- what every run guarantees -----

  lemma {:induction false} StepKeepsPublished(mode: Mode, st: State, a: Action, st': State, n: Name)
    requires Inv(mode, st) && Step(mode, st, a) == Some(st') && n != Receipt && n in st.files.published
    ensures n in st'.files.published && st'.files.published[n] == st.files.published[n]
  {
    if a.Fill? { FillKeepsInv(mode, st, a.who, st'); }
  }

  /** Write-once: whatever happens later, a published record, report or manifest stays as it is, and it is whole. */
  lemma {:induction false} PublishedForever(mode: Mode, actions: seq<Action>, later: seq<Action>, n: Name)
    requires Run(mode, actions).Some? && Run(mode, actions + later).Some?
    requires n != Receipt && n in Run(mode, actions).value.files.published
    ensures
      var before, after := Run(mode, actions).value.files, Run(mode, actions + later).value.files;
      n in after.published && after.published[n] == before.published[n] && after.published[n].whole
    decreases |later|
  {
    RunKeepsAll(mode, actions);
    if later == [] {
      assert actions + later == actions;
    } else {
      var front := later[..|later| - 1];
      assert (actions + later)[..|actions + later| - 1] == actions + front;
      assert (actions + later)[|actions + later| - 1] == later[|later| - 1];
      PublishedForever(mode, actions, front, n);
      RunKeepsAll(mode, actions + front);
      StepKeepsPublished(
        mode, Run(mode, actions + front).value, later[|later| - 1], Run(mode, actions + later).value, n);
    }
  }

  /** The canonical result stands for the whole bundle, and the candidate's record for the reference's. */
  lemma {:induction false} VerificationImpliesBundle(mode: Mode, actions: seq<Action>)
    requires Run(mode, actions).Some?
    ensures
      var pub := Run(mode, actions).value.files.published;
      && (Candidate in pub ==> Reference in pub)
      && (Verification in pub ==> Manifest in pub && Report in pub && Candidate in pub && Reference in pub)
  {
    RunKeepsAll(mode, actions);
  }

  /** No placeholder, one failing placeholder in last place, or a failing one followed by a cancelled one. */
  ghost predicate PlaceholderSuffix(pub: map<Name, File>) {
    && (Reference in pub && pub[Reference].doc.Placeholder? ==>
          && pub[Reference].doc.status != Cancelled
          && (Candidate in pub ==> pub[Candidate].doc.Placeholder? && pub[Candidate].doc.status == Cancelled))
    && (Candidate in pub && pub[Candidate].doc.Placeholder? && Reference in pub && pub[Reference].doc.Real? ==>
          pub[Candidate].doc.status != Cancelled)
  }

  /** Both records are placeholders, the worker's and the parent's. */
  ghost predicate MixedPlaceholders(pub: map<Name, File>) {
    && Reference in pub && Candidate in pub
    && pub[Reference].doc.Placeholder? && pub[Candidate].doc.Placeholder?
    && pub[Reference].doc.writer != pub[Candidate].doc.writer
  }

  /**
   * The parent, which has placed nothing itself, publishes a placeholder for the candidate although the reference on
   * disk is already one.
   */
  ghost predicate HandOver(st: State, a: Action) {
    && a == Link(Parent) && st.parent.next == 1 && !st.parent.placed
    && Reference in st.files.published && st.files.published[Reference].doc.Placeholder?
  }

  lemma {:induction false} PairIsSuffixUnlessMixed(pub: map<Name, File>)
    requires PairOk(pub) && (Candidate in pub ==> Reference in pub)
    ensures PlaceholderSuffix(pub) <==> !MixedPlaceholders(pub)
  {}

  lemma {:induction false} HandOverMixes(mode: Mode, st: State, a: Action, st': State)
    requires Full(mode, st) && Step(mode, st, a) == Some(st') && HandOver(st, a)
    ensures MixedPlaceholders(st'.files.published)
  {
    assert Program(mode, Parent)[1] == Candidate;
  }

  lemma {:induction false} LinkMixesOnlyByHandOver(mode: Mode, st: State, who: Who, st': State)
    requires Full(mode, st) && Step(mode, st, Link(who)) == Some(st')
    requires !MixedPlaceholders(st.files.published) && !HandOver(st, Link(who))
    ensures !MixedPlaceholders(st'.files.published)
  {
    var p := ProcOf(st, who);
    var name := Program(mode, who)[p.next];
    LinkKeepsPair(mode, st, who, st');
    assert p.next == 0 <==> name == Reference;
    assert p.next == 1 <==> name == Candidate;
    assert st.files.temps[name].doc == p.doc && DocOk(p, who, p.doc);
  }

  lemma {:induction false} NothingElseMixes(mode: Mode, st: State, a: Action, st': State)
    requires Full(mode, st) && Step(mode, st, a) == Some(st') && !a.Link?
    ensures MixedPlaceholders(st'.files.published) == MixedPlaceholders(st.files.published)
  {
    if a.Finish? { assert st'.files.published == st.files.published; } else { OthersKeepRecords(mode, st, a, st'); }
  }

  /** In every reachable state the suffix is lost by a hand-over, and by nothing else. */
  lemma {:induction false} OnlyHandOverBreaks(mode: Mode, actions: seq<Action>, a: Action)
    requires Run(mode, actions).Some? && PlaceholderSuffix(Run(mode, actions).value.files.published)
    requires Step(mode, Run(mode, actions).value, a).Some?
    ensures PlaceholderSuffix(Step(mode, Run(mode, actions).value, a).value.files.published)
      <==> !HandOver(Run(mode, actions).value, a)
  {
    RunKeepsAll(mode, actions);
    StepIsRun(mode, actions, a);
    RunKeepsAll(mode, actions + [a]);
    BreaksOnce(mode, Run(mode, actions).value, a, Run(mode, actions + [a]).value);
  }

  lemma {:induction false} StepIsRun(mode: Mode, actions: seq<Action>, a: Action)
    requires Run(mode, actions).Some?
    ensures Run(mode, actions + [a]) == Step(mode, Run(mode, actions).value, a)
  {
    assert (actions + [a])[..|actions|] == actions;
  }

  lemma {:induction false} BreaksOnce(mode: Mode, st: State, a: Action, st': State)
    requires Full(mode, st) && Full(mode, st') && Step(mode, st, a) == Some(st')
    requires PlaceholderSuffix(st.files.published)
    ensures PlaceholderSuffix(st'.files.published) == !HandOver(st, a)
  {
    PairIsSuffixUnlessMixed(st.files.published);
    PairIsSuffixUnlessMixed(st'.files.published);
    if HandOver(st, a) { HandOverMixes(mode, st, a, st'); }
    else if a.Link? { LinkMixesOnlyByHandOver(mode, st, a.who, st'); }
    else { NothingElseMixes(mode, st, a, st'); }
  }

  /** At step `i` of the run the records change hands. */
  ghost predicate HandsOverAt(mode: Mode, actions: seq<Action>, i: nat) {
    i < |actions| && Run(mode, actions[..i]).Some? && HandOver(Run(mode, actions[..i]).value, actions[i])
  }

  ghost predicate NeverHandedOver(mode: Mode, actions: seq<Action>) {
    forall i :: 0 <= i < |actions| ==> !HandsOverAt(mode, actions, i)
  }

  lemma {:induction false} OneMoreStep(mode: Mode, front: seq<Action>, a: Action, actions: seq<Action>)
    requires actions == front + [a] && Run(mode, front).Some?
    ensures NeverHandedOver(mode, actions) == (NeverHandedOver(mode, front) && !HandOver(Run(mode, front).value, a))
  {
    assert actions[..|front|] == front && actions[|front|] == a;
    forall i | 0 <= i < |front| ensures HandsOverAt(mode, actions, i) == HandsOverAt(mode, front, i) {
      assert front[..i] == actions[..i];
    }
    assert HandsOverAt(mode, actions, |front|) == HandOver(Run(mode, front).value, a);
  }

  /** Over a whole run: the placeholders form a failing-then-cancelled suffix exactly when no hand-over took place. */
  lemma {:induction false} SuffixUnlessHandedOver(mode: Mode, actions: seq<Action>)
    requires Run(mode, actions).Some?
    ensures PlaceholderSuffix(Run(mode, actions).value.files.published) == NeverHandedOver(mode, actions)
  {
    if actions != [] {
      var front, a := actions[..|actions| - 1], actions[|actions| - 1];
      assert actions == front + [a];
      SuffixUnlessHandedOver(mode, front);
      OneMoreStep(mode, front, a, actions);
      SuffixStep(mode, front, a, Run(mode, front).value, Run(mode, actions).value);
    }
  }

  lemma {:induction false} SuffixStep(mode: Mode, front: seq<Action>, a: Action, st: State, st': State)
    requires Run(mode, front) == Some(st) && Step(mode, st, a) == Some(st')
    ensures PlaceholderSuffix(st'.files.published) == (PlaceholderSuffix(st.files.published) && !HandOver(st, a))
  {
    RunKeepsAll(mode, front);
    StepIsRun(mode, front, a);
    RunKeepsAll(mode, front + [a]);
    if PlaceholderSuffix(st.files.published) { BreaksOnce(mode, st, a, st'); } else { BrokenForever(mode, st, a, st'); }
  }

  lemma {:induction false} BrokenForever(mode: Mode, st: State, a: Action, st': State)
    requires Full(mode, st) && Full(mode, st') && Step(mode, st, a) == Some(st')
    requires !PlaceholderSuffix(st.files.published)
    ensures !PlaceholderSuffix(st'.files.published)
  {
    PairIsSuffixUnlessMixed(st.files.published);
    PairIsSuffixUnlessMixed(st'.files.published);
    StepKeepsPublished(mode, st, a, st', Reference);
    StepKeepsPublished(mode, st, a, st', Candidate);
  }

  /** One process alone always leaves such a suffix. */
  lemma {:induction false} LocalSuffix(actions: seq<Action>)
    requires Run(Local, actions).Some?
    ensures PlaceholderSuffix(Run(Local, actions).value.files.published)
  {
    SuffixUnlessHandedOver(Local, actions);
    forall i | 0 <= i < |actions| ensures !HandsOverAt(Local, actions, i) {
      if HandsOverAt(Local, actions, i) {
        LocalParentIdle(actions[..i]);
        assert (actions[..i + 1])[..i] == actions[..i];
        PrefixRuns(Local, actions, i + 1);
      }
    }
  }

  lemma {:induction false} PrefixRuns(mode: Mode, actions: seq<Action>, n: nat)
    requires n <= |actions| && Run(mode, actions).Some?
    ensures Run(mode, actions[..n]).Some?
    decreases |actions|
  {
    if n == |actions| {
      assert actions[..n] == actions;
    } else {
      PrefixRuns(mode, actions[..|actions| - 1], n);
      assert actions[..|actions| - 1][..n] == actions[..n];
    }
  }

  /** The parent does nothing, and nothing carries its mark. */
  ghost predicate ParentAbsent(st: State) {
    && !st.parent.alive
    && (forall n :: n in st.files.published ==> !ByParent(st.files.published[n].doc))
    && (forall n :: n in st.files.temps ==> !ByParent(st.files.temps[n].doc))
    && !ByParent(st.worker.doc)
  }

  lemma {:induction false} StepKeepsParentAbsent(st: State, a: Action, st': State)
    requires ParentAbsent(st) && Step(Local, st, a) == Some(st')
    ensures ParentAbsent(st')
  {
    match a {
      case Begin(who, doc) => assert who == Worker && !ByParent(doc);
      case Fill(_) => case Link(_) => case Finish(_, _) => case Look => case Skip => case DropReceipt =>
      case HandleInterrupt(_) => case Abort(_, _) => case Die(_) =>
    }
  }

  lemma {:induction false} LocalParentIdle(actions: seq<Action>)
    requires Run(Local, actions).Some?
    ensures ParentAbsent(Run(Local, actions).value)
  {
    if actions != [] {
      var init := actions[..|actions| - 1];
      LocalParentIdle(init);
      StepKeepsParentAbsent(Run(Local, init).value, actions[|actions| - 1], Run(Local, actions).value);
    }
  }

  ghost predicate Reachable(mode: Mode, st: State) {
    exists actions :: Run(mode, actions) == Some(st)
  }

  lemma {:induction false} ReachNext(mode: Mode, st: State, a: Action, st': State)
    requires Reachable(mode, st) && Step(mode, st, a) == Some(st')
    ensures Reachable(mode, st')
  {
    var actions :| Run(mode, actions) == Some(st);
    assert (actions + [a])[..|actions|] == actions;
    assert Run(mode, actions + [a]) == Some(st');
  }

  /** A process about to write, with nothing in its way. */
  ghost predicate Ready(mode: Mode, st: State, who: Who, doc: Doc, name: Name) {
    var p := ProcOf(st, who);
    && Reachable(mode, st) && p.next < |Program(mode, who)| && name == Program(mode, who)[p.next]
    && p.alive && p.stage == Idle && DocOk(p, who, doc) && (who == Parent && p.next < 2 ==> p.missing)
    && name !in st.files.temps && name !in st.files.published && name !in st.files.linked
  }

  /** An undisturbed publication: create, fill, link. */
  lemma {:induction false} ReachPublished(mode: Mode, st: State, who: Who, doc: Doc, name: Name) returns (st': State)
    requires Ready(mode, st, who, doc, name)
    ensures Reachable(mode, st') && ProcOf(st', who) == ProcOf(st, who).(stage := Linked, doc := doc)
    ensures st'.files.published == st.files.published[name := File(doc, true)]
    ensures st'.files.temps.Keys == st.files.temps.Keys + {name} && st'.files.linked == st.files.linked + {name}
    ensures who == Worker ==> st'.parent == st.parent
  {
    var s1 := Step(mode, st, Begin(who, doc)).value;
    ReachNext(mode, st, Begin(who, doc), s1);
    var s2 := Step(mode, s1, Fill(who)).value;
    ReachNext(mode, s1, Fill(who), s2);
    st' := Step(mode, s2, Link(who)).value;
    ReachNext(mode, s2, Link(who), st');
  }

  /**
   * The mixed case is real: a worker interrupted in its first run publishes that placeholder and dies, and the parent
   * then completes the bundle with a failing status of its own.
   */
  lemma {:induction false} MixedIsReachable() returns (st: State)
    ensures Reachable(Isolated, st) && MixedPlaceholders(st.files.published) && !PlaceholderSuffix(st.files.published)
  {
    var s2 := WorkerLeavesPlaceholder();
    var s3 := s2.(parent := s2.parent.(next := 1));
    ReachNext(Isolated, s2, Skip, s3);
    var s4 := s3.(parent := s3.parent.(missing := true));
    ReachNext(Isolated, s3, Look, s4);
    st := ReachPublished(Isolated, s4, Parent, Placeholder(Failed, Parent), Candidate);
  }

  lemma {:induction false} WorkerLeavesPlaceholder() returns (st: State)
    ensures Reachable(Isolated, st) && st.parent == Initial(Isolated).parent
    ensures st.files.published == map[Reference := File(Placeholder(Interrupted, Worker), true)]
    ensures Candidate !in st.files.temps && Candidate !in st.files.linked
  {
    var s0 := Initial(Isolated);
    assert Run(Isolated, []) == Some(s0);
    var s1 := Step(Isolated, s0, HandleInterrupt(false)).value;
    ReachNext(Isolated, s0, HandleInterrupt(false), s1);
    assert s1.files == s0.files && s1.parent == s0.parent;
    st := ReachPublished(Isolated, s1, Worker, Placeholder(Interrupted, Worker), Reference);
  }

  /** A process writes its next document, from creating the temporary to removing it. */
  lemma {:induction false} ReachWritten(mode: Mode, st: State, who: Who, doc: Doc, name: Name) returns (st': State)
    requires Ready(mode, st, who, doc, name)
    ensures Reachable(mode, st') && ProcOf(st', who).next == ProcOf(st, who).next + 1
    ensures ProcOf(st', who).alive && ProcOf(st', who).stage == Idle
    ensures ProcOf(st', who).interruptedAt == ProcOf(st, who).interruptedAt
    ensures st'.files.published == st.files.published[name := File(doc, true)]
    ensures st'.files.temps.Keys == st.files.temps.Keys && st'.files.linked == st.files.linked
  {
    var linked := ReachPublished(mode, st, who, doc, name);
    st' := Step(mode, linked, Finish(who, true)).value;
    ReachNext(mode, linked, Finish(who, true), st');
  }

  /** Complete bundles exist: a run that publishes both records, the report, the manifest and the verification. */
  lemma {:induction false} CompleteBundleIsReachable(a: int, b: int, c: int, d: int, e: int) returns (st: State)
    ensures Reachable(Local, st)
    ensures st.files.published == map[
      Reference := File(Real(a), true), Candidate := File(Real(b), true), Report := File(Real(c), true),
      Manifest := File(Real(d), true), Verification := File(Real(e), true)]
  {
    st := Initial(Local);
    assert Run(Local, []) == Some(st);
    st := ReachWritten(Local, st, Worker, Real(a), Reference);
    st := ReachWritten(Local, st, Worker, Real(b), Candidate);
    st := ReachWritten(Local, st, Worker, Real(c), Report);
    st := ReachWritten(Local, st, Worker, Real(d), Manifest);
    st := ReachWritten(Local, st, Worker, Real(e), Verification);
  }

  // ----- marks and receipts -----

  /** The worker marks a run as interrupted or as cancelled, and as nothing else. */
  ghost predicate MarkOk(d: Doc) {
    d.Placeholder? && d.writer == Worker ==> d.status in {Interrupted, Cancelled}
  }

  ghost predicate MarksOk(st: State) {
    && (forall n :: n in st.files.published ==> MarkOk(st.files.published[n].doc))
    && (forall n :: n in st.files.temps ==> MarkOk(st.files.temps[n].doc))
    && MarkOk(st.worker.doc) && MarkOk(st.parent.doc)
  }

  lemma {:induction false} StepKeepsMarks(mode: Mode, st: State, a: Action, st': State)
    requires MarksOk(st) && Step(mode, st, a) == Some(st')
    ensures MarksOk(st')
  {
    match a {
      case Begin(_, doc) => assert MarkOk(doc);
      case Fill(_) => case Link(_) => case Finish(_, _) => case Look => case Skip => case DropReceipt =>
      case HandleInterrupt(_) => case Abort(_, _) => case Die(_) =>
    }
  }

  lemma {:induction false} WorkerMarks(mode: Mode, actions: seq<Action>)
    requires Run(mode, actions).Some?
    ensures MarksOk(Run(mode, actions).value)
  {
    if actions != [] {
      var init := actions[..|actions| - 1];
      WorkerMarks(mode, init);
      StepKeepsMarks(mode, Run(mode, init).value, actions[|actions| - 1], Run(mode, actions).value);
    }
  }

  /** The receipt is published by the worker's link and taken away by the parent, and by nothing else. */
  lemma {:induction false} ReceiptComesAndGoes(mode: Mode, st: State, a: Action, st': State)
    requires Inv(mode, st) && Step(mode, st, a) == Some(st')
    ensures Receipt in st'.files.published && Receipt !in st.files.published ==>
      mode == Isolated && a == Link(Worker) && st.worker.next == 2
    ensures Receipt in st.files.published && Receipt !in st'.files.published ==> a == DropReceipt
    ensures a == DropReceipt ==> st'.files.published == st.files.published - {Receipt} && st.parent.next >= 2
  {
    if a.Fill? { FillKeepsInv(mode, st, a.who, st'); }
  }

  /** The parent stands in for a record only after it has looked for it and not found it. */
  ghost predicate HasLooked(p: Proc) {
    p.alive && p.stage != Idle && p.next < 2 ==> p.missing
  }

  lemma {:induction false} ParentLooksFirst(mode: Mode, actions: seq<Action>)
    requires Run(mode, actions).Some?
    ensures HasLooked(Run(mode, actions).value.parent)
  {
    if actions != [] {
      var init := actions[..|actions| - 1];
      ParentLooksFirst(mode, init);
      StepKeepsLooked(mode, Run(mode, init).value, actions[|actions| - 1], Run(mode, actions).value);
    }
  }

  lemma {:induction false} StepKeepsLooked(mode: Mode, st: State, a: Action, st': State)
    requires HasLooked(st.parent) && Step(mode, st, a) == Some(st')
    ensures HasLooked(st'.parent)
    ensures st'.parent.missing && !st.parent.missing ==>
      a == Look && st.parent.next < 2 && Program(mode, Parent)[st.parent.next] !in st.files.published
  {
    match a {
      case Begin(_, _) => case Fill(_) => case Link(_) => case Finish(_, _) => case Look => case Skip =>
      case DropReceipt => case HandleInterrupt(_) => case Abort(_, _) => case Die(_) =>
    }
  }

  ghost function Actor(a: Action): Who {
    match a
    case Begin(who, _) => who
    case Fill(who) => who
    case Link(who) => who
    case Finish(who, _) => who
    case Abort(who, _) => who
    case Die(who) => who
    case HandleInterrupt(_) => Worker
    case _ => Parent
  }

  /** A process that has died or aborted takes no step, and no step brings it back. */
  lemma {:induction false} DeadProcessStops(mode: Mode, st: State, a: Action, st': State, who: Who)
    requires Step(mode, st, a) == Some(st') && !ProcOf(st, who).alive
    ensures Actor(a) != who && ProcOf(st', who) == ProcOf(st, who)
  {
    match a {
      case Begin(_, _) => case Fill(_) => case Link(_) => case Finish(_, _) => case Look => case Skip =>
      case DropReceipt => case HandleInterrupt(_) => case Abort(_, _) => case Die(_) =>
    }
  }
}
