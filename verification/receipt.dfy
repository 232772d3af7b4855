/** The worker's receipt: what the parent accepts, and what it reports when there is nothing to accept. */
module Receipts {
  import opened Wrappers
  import opened Records
  import opened Study
  import opened Verdicts
  import Execution

  /** A retained record as the receipt describes it; digests are uninterpreted. */
  datatype Row<D> = Row(path: string, recordDigest: D, evidenceDigest: D, status: RunStatus)

  /** `verdict` is `None` for a name that is not a verdict. */
  datatype Receipt<D> = Receipt(
    schema: string, scope: string, recipe: D, exitCode: int, verdict: Option<Verdict>, rows: seq<Row<D>>)

  /** What the parent knows without the worker: the recipe, its runs, and how documents are digested. */
  datatype Expectation<D> = Expectation(
    schema: string, scope: string, recipe: D, runs: seq<RunSpec>, recordDigest: Entry -> D, evidenceDigest: Entry -> D)

  const CODES: set<int> := {0, 1, 2, 3, 4, 5, 130}
  const ROLE_PATHS: seq<string> := ["reference.run.json", "candidate.run.json"]

  /** The exit code of each verdict; a failed execution may also have been an interrupt. */
  ghost predicate CodeAgrees(code: int, verdict: Option<Verdict>) {
    verdict.Some? &&
    match verdict.value
    case Verified => code == 0
    case PolicyPass => code == 0
    case PolicyFail => code == 1
    case InvalidConfiguration => code == 2
    case NotComparable => code == 3
    case Insufficient => code == 4
    case ExecutionFailed => code == 5 || code == 130
  }

  /** A row, checked against the record found on disk. */
  ghost predicate RowOk<D>(x: Expectation<D>, k: nat, row: Row<D>, code: int, file: Option<Entry>)
    requires k < |x.runs| && k < 2
  {
    && row.path == ROLE_PATHS[k] && file.Some?
    && file.value.record.requested == x.runs[k]
    && x.recordDigest(file.value) == row.recordDigest && x.evidenceDigest(file.value) == row.evidenceDigest
    && row.status == file.value.record.status
    && (code in {0, 1} ==> file.value.record.status == Completed)
  }

  ghost predicate ReceiptOk<D>(x: Expectation<D>, r: Receipt<D>, returncode: int, files: seq<Option<Entry>>)
    requires |x.runs| == 2 == |files|
  {
    && r.schema == x.schema && r.scope == x.scope && r.recipe == x.recipe
    && r.exitCode in CODES && r.exitCode == returncode
    && CodeAgrees(r.exitCode, r.verdict)
    && |r.rows| == 2
    && forall k :: 0 <= k < 2 ==> RowOk(x, k, r.rows[k], r.exitCode, files[k])
  }

  method ReadReceipt<D(==)>(x: Expectation<D>, r: Receipt<D>, returncode: int, files: seq<Option<Entry>>)
    returns (accepted: bool)
    requires |x.runs| == 2 == |files|
    ensures accepted <==> ReceiptOk(x, r, returncode, files)
  {
    if r.schema != x.schema || r.scope != x.scope || r.recipe != x.recipe { return false; }
    if r.exitCode !in CODES || r.exitCode != returncode { return false; }
    if r.verdict.None? { return false; }
    var expected := ExitCode(r.verdict.value);
    if r.exitCode != expected && !(r.exitCode == INTERRUPT_CODE && r.verdict.value == ExecutionFailed) { return false; }
    if |r.rows| != 2 { return false; }
    for k := 0 to 2
      invariant forall i :: 0 <= i < k ==> RowOk(x, i, r.rows[i], r.exitCode, files[i])
    {
      var row := r.rows[k];
      if row.path != ROLE_PATHS[k] { return false; }
      if files[k].None? { return false; }
      var entry := files[k].value;
      if entry.record.requested != x.runs[k] || x.recordDigest(entry) != row.recordDigest
         || x.evidenceDigest(entry) != row.evidenceDigest { return false; }
      if row.status != entry.record.status || (r.exitCode in {0, 1} && entry.record.status != Completed) {
        return false;
      }
    }
    return true;
  }

  // ----- producer and consumer agree -----

  /** The receipt the worker writes for its manifest. */
  function ReceiptOf<D>(x: Expectation<D>, m: Manifest): Receipt<D>
    requires |m.records| == 2
  {
    Receipt(x.schema, x.scope, x.recipe, m.exitCode, Some(m.verdict),
            seq(2, k requires 0 <= k < 2 =>
              Row(ROLE_PATHS[k], x.recordDigest(m.records[k]), x.evidenceDigest(m.records[k]),
                  m.records[k].record.status)))
  }

  function Files(records: seq<Entry>): seq<Option<Entry>> {
    seq(|records|, k requires 0 <= k < |records| => Some(records[k]))
  }

  lemma {:induction false} AgreedCodeIsKnown(code: int, v: Verdict)
    requires CodeAgrees(code, Some(v))
    ensures code in CODES
  {}

  /** Every manifest the verifier can produce passes every check of the parent. */
  lemma {:induction false} ProducedIsAccepted<D>(
      x: Expectation<D>, s: Setup, p: Profile, m: Manifest, interrupted: bool, outcomes: seq<Analysis>)
    requires ManifestFits(s, p, m, interrupted, outcomes) && x.runs == s.runs
    ensures ReceiptOk(x, ReceiptOf(x, m), m.exitCode, Files(m.records))
  {
    VerdictCodes(s, p, m, interrupted, outcomes);
    AgreedCodeIsKnown(m.exitCode, m.verdict);
    CompletedBehindSuccess(s, p, m, 0);
    CompletedBehindSuccess(s, p, m, 1);
    ReceiptIsAccepted(x, m);
  }

  lemma {:induction false} ReceiptIsAccepted<D>(x: Expectation<D>, m: Manifest)
    requires |m.records| == 2 == |x.runs| && m.exitCode in CODES && CodeAgrees(m.exitCode, Some(m.verdict))
    requires forall k :: 0 <= k < 2 ==> m.records[k].record.requested == x.runs[k]
    requires m.exitCode in {0, 1} ==> forall k :: 0 <= k < 2 ==> m.records[k].record.status == Completed
    ensures ReceiptOk(x, ReceiptOf(x, m), m.exitCode, Files(m.records))
  {
    forall k | 0 <= k < 2 ensures RowOk(x, k, ReceiptOf(x, m).rows[k], m.exitCode, Files(m.records)[k]) {
      ProducedRow(x, m, k);
    }
  }

  lemma {:induction false} CompletedBehindSuccess(s: Setup, p: Profile, m: Manifest, k: nat)
    requires |m.records| == 2 && k < 2 && (m.exitCode in {0, 1} ==> Sound(s, p, m.records))
    ensures m.exitCode in {0, 1} ==> m.records[k].record.status == Completed
  {}

  lemma {:induction false} ProducedRow<D>(x: Expectation<D>, m: Manifest, k: nat)
    requires |m.records| == 2 == |x.runs| && k < 2 && m.records[k].record.requested == x.runs[k]
    requires m.exitCode in {0, 1} ==> m.records[k].record.status == Completed
    ensures RowOk(x, k, ReceiptOf(x, m).rows[k], m.exitCode, Files(m.records)[k])
  {}

  lemma {:induction false} Codes(
      p: Profile, gate: Verdict, verdict: Verdict, code: nat, interrupted: bool, outcomes: seq<Analysis>)
    requires VerdictFits(p, gate, verdict, outcomes)
    requires gate in {Verified, NotComparable, Insufficient, ExecutionFailed}
    requires code == if interrupted then INTERRUPT_CODE else ExitCode(verdict)
    requires interrupted ==> gate == ExecutionFailed
    ensures verdict != InvalidConfiguration && CodeAgrees(code, Some(verdict))
    ensures code == 130 <==> interrupted
    ensures code in {0, 1} <==> verdict in CONCLUSIVE
    ensures code == 3 <==> gate == NotComparable
    ensures code == 5 <==> !interrupted && gate == ExecutionFailed
    ensures code == 4 <==> gate == Insufficient || (gate == Verified && verdict == Insufficient)
    ensures verdict in CONCLUSIVE ==> gate == Verified
  {}

  /** The exit code tells an interrupt and a conclusive verdict from everything else. */
  lemma {:induction false} VerdictCodes(s: Setup, p: Profile, m: Manifest, interrupted: bool, outcomes: seq<Analysis>)
    requires ManifestFits(s, p, m, interrupted, outcomes)
    ensures m.verdict != InvalidConfiguration && CodeAgrees(m.exitCode, Some(m.verdict))
    ensures m.exitCode == 130 <==> interrupted
    ensures m.exitCode in {0, 1} <==> m.verdict in CONCLUSIVE
    ensures m.exitCode == 3 <==> m.gate == NotComparable
    ensures m.exitCode == 5 <==> !interrupted && m.gate == ExecutionFailed
    ensures m.exitCode == 4 <==> m.gate == Insufficient || (m.gate == Verified && m.verdict == Insufficient)
    ensures m.verdict in CONCLUSIVE ==> Sound(s, p, m.records)
  {
    Codes(p, m.gate, m.verdict, m.exitCode, interrupted, outcomes);
  }

  /** An accepted receipt with a success code belongs to two completed records of this recipe. */
  lemma {:induction false} AcceptedConclusive<D>(
      x: Expectation<D>, r: Receipt<D>, returncode: int, files: seq<Option<Entry>>)
    requires |x.runs| == 2 == |files| && ReceiptOk(x, r, returncode, files)
    ensures r.verdict.Some? && (r.exitCode in {0, 1} <==> r.verdict.value in CONCLUSIVE)
    ensures r.exitCode in {0, 1} ==>
      (forall k :: 0 <= k < 2 ==>
         files[k].Some? && files[k].value.record.status == Completed && files[k].value.record.requested == x.runs[k])
  {
    assert RowOk(x, 0, r.rows[0], r.exitCode, files[0]) && RowOk(x, 1, r.rows[1], r.exitCode, files[1]);
  }

  /** With digests that do not collide, a receipt fixes both records. */
  lemma {:induction false} ReceiptPinsRecords<D>(
      x: Expectation<D>, r: Receipt<D>, code: int, files: seq<Option<Entry>>, others: seq<Option<Entry>>)
    requires forall a, b :: x.recordDigest(a) == x.recordDigest(b) ==> a == b
    requires |x.runs| == 2 == |files| == |others|
    requires ReceiptOk(x, r, code, files) && ReceiptOk(x, r, code, others)
    ensures files == others
  {
    forall k | 0 <= k < 2 ensures files[k] == others[k] {
      assert RowOk(x, k, r.rows[k], r.exitCode, files[k]) && RowOk(x, k, r.rows[k], r.exitCode, others[k]);
    }
  }

  // ----- the parent -----

  /** How the bounded worker process ends for its parent. */
  datatype Worker<D> =
    | Exited(returncode: int, receipt: Option<Receipt<D>>)
    | WorkerTimedOut
    | WorkerRaised
    | ParentInterrupted

  /** What the parent publishes. */
  datatype Published = Published(verdict: Verdict, exitCode: int, records: seq<Entry>)

  /** The record of run `k`: the one found, or a stand-in; only the first missing run carries the status. */
  ghost predicate FilledAs<D>(
    x: Expectation<D>, study: string, files: seq<Option<Entry>>, k: nat, status: RunStatus, e: Entry)
    requires k < |x.runs| && k < |files|
  {
    if files[k].Some? then e == files[k].value
    else if forall i :: 0 <= i < k ==> files[i].Some? then StandsFor(e, study, k, x.runs[k], status)
    else StandsFor(e, study, k, x.runs[k], Cancelled)
  }

  /** A record found that belongs to another recipe. */
  ghost predicate Foreign<D>(x: Expectation<D>, files: seq<Option<Entry>>)
    requires |x.runs| == |files|
  {
    exists k :: 0 <= k < |files| && files[k].Some? && files[k].value.record.requested != x.runs[k]
  }

  /** `None` when a record found belongs to another recipe. */
  method PartialRecords<D>(x: Expectation<D>, study: string, files: seq<Option<Entry>>, status: RunStatus)
    returns (records: Option<seq<Entry>>)
    requires |x.runs| == |files|
    ensures records.None? <==> Foreign(x, files)
    ensures records.Some? ==> |records.value| == |files|
    ensures records.Some? ==> forall k :: 0 <= k < |files| ==> FilledAs(x, study, files, k, status, records.value[k])
  {
    var filled: seq<Entry> := [];
    var firstMissing := true;
    for k := 0 to |files|
      invariant |filled| == k
      invariant firstMissing <==> forall i :: 0 <= i < k ==> files[i].Some?
      invariant forall i :: 0 <= i < k ==> FilledAs(x, study, files, i, status, filled[i])
      invariant forall i :: 0 <= i < k && files[i].Some? ==> files[i].value.record.requested == x.runs[i]
    {
      if files[k].Some? {
        if files[k].value.record.requested != x.runs[k] { return None; }
        filled := filled + [files[k].value];
      } else {
        var record := Record(x.runs[k], map[], map[], if firstMissing then status else Cancelled, map[]);
        filled := filled + [Entry(study, RunId(k), record)];
        firstMissing := false;
      }
    }
    return Some(filled);
  }

  ghost predicate Accepts<D>(x: Expectation<D>, w: Worker<D>, files: seq<Option<Entry>>)
    requires |x.runs| == 2 == |files|
  {
    w.Exited? && w.receipt.Some? && ReceiptOk(x, w.receipt.value, w.returncode, files)
  }

  ghost predicate EntryOk(e: Entry, spec: RunSpec) {
    e.record.status == Completed && e.record.requested == spec
  }

  /** A missing record is marked by how the worker process ended. */
  ghost predicate FailedAs<D>(
    x: Expectation<D>, study: string, files: seq<Option<Entry>>, w: Worker<D>, k: nat, e: Entry)
    requires k < |x.runs| && k < |files|
  {
    match w
    case ParentInterrupted => FilledAs(x, study, files, k, RunStatus.Interrupted, e)
    case WorkerTimedOut => FilledAs(x, study, files, k, TimedOut, e)
    case WorkerRaised => FilledAs(x, study, files, k, Failed, e)
    case Exited(_, _) => FilledAs(x, study, files, k, Failed, e)
  }

  /** The parent reports the worker's conclusion exactly when it accepts the receipt; otherwise a failure. */
  method VerifyIsolated<D(==)>(x: Expectation<D>, study: string, w: Worker<D>, files: seq<Option<Entry>>)
    returns (result: Option<Published>)
    requires |x.runs| == 2 == |files|
    ensures Accepts(x, w, files) ==>
      (result.Some?
       && Some(result.value.verdict) == w.receipt.value.verdict && result.value.exitCode == w.returncode
       && Files(result.value.records) == files)
    ensures result.None? <==> !Accepts(x, w, files) && Foreign(x, files)
    ensures !Accepts(x, w, files) && result.Some? ==>
      && |result.value.records| == 2
      && result.value.verdict == ExecutionFailed
      && (forall k :: 0 <= k < 2 ==> FailedAs(x, study, files, w, k, result.value.records[k]))
      && result.value.exitCode == (if w.ParentInterrupted? then 130 else 5)
    ensures result.Some? ==> (result.value.exitCode in {0, 1} <==> result.value.verdict in CONCLUSIVE)
    ensures result.Some? && result.value.verdict in CONCLUSIVE ==>
      (|result.value.records| == 2
       && forall k :: 0 <= k < 2 ==> EntryOk(result.value.records[k], x.runs[k]))
  {
    var accepted := false;
    if w.Exited? && w.receipt.Some? {
      accepted := ReadReceipt(x, w.receipt.value, w.returncode, files);
    }
    if accepted {
      var r := w.receipt.value;
      AcceptedConclusive(x, r, w.returncode, files);
      assert RowOk(x, 0, r.rows[0], r.exitCode, files[0]) && RowOk(x, 1, r.rows[1], r.exitCode, files[1]);
      return Some(Published(r.verdict.value, r.exitCode, [files[0].value, files[1].value]));
    }
    var status := match w
      case ParentInterrupted => RunStatus.Interrupted
      case WorkerTimedOut => TimedOut
      case _ => Failed;
    var records := PartialRecords(x, study, files, status);
    if records.None? { return None; }
    return Some(Published(ExecutionFailed, if w.ParentInterrupted? then INTERRUPT_CODE else 5, records.value));
  }

  // ----- from the verdict back to the runs -----

  /** The run's record carries the status its lifecycle ended with. */
  ghost predicate RanAs(
    e: Entry, requested: bool, answer: Execution.Step -> Execution.Answer, trace: seq<Execution.Step>)
  {
    Execution.Lifecycle(requested, answer, trace, Execution.Recorded(e.record.status))
  }

  /** A conclusive verdict stands for two sessions launched, measured, observed and closed without an error. */
  lemma {:induction false} ConclusiveMeansMeasured(
      s: Setup, p: Profile, m: Manifest, interrupted: bool, outcomes: seq<Analysis>, k: nat, requested: bool,
      answer: Execution.Step -> Execution.Answer, trace: seq<Execution.Step>)
    requires ManifestFits(s, p, m, interrupted, outcomes) && m.verdict in CONCLUSIVE
    requires k < 2 && RanAs(m.records[k], requested, answer, trace)
    ensures Execution.MeasuredAndClosed(answer, trace)
  {
    VerdictCodes(s, p, m, interrupted, outcomes);
    CompletedOfSound(s, p, m.records, k);
    Execution.CompletedRunWasMeasured(requested, answer, trace);
  }

  lemma {:induction false} CompletedOfSound(s: Setup, p: Profile, records: seq<Entry>, k: nat)
    requires Sound(s, p, records) && k < 2
    ensures records[k].record.status == Completed && !p.gaps(records[k])
  {}
}
