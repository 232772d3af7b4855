# Verification of metria

A Dafny model of metria's evidence engine, with proofs of what the engine promises. metria runs a reference and a
candidate inference configuration, records what was requested, resolved and observed, and decides whether the two runs
may be compared at all. The model covers that decision and everything it rests on: the comparison of two nested
evidence records, the bounded subprocess runner, write-once publication and transactional installation, the run, study
and verdict state machines, and the self-contained algorithms for freezing, scoring, divergence and configuration text.

`dafny verify dfyconfig.toml` checks the whole project.

## How it is laid out

| files | what they hold |
|---|---|
| `paths`, `stripping`, `plans` | dotted paths, white space around texts, comparison plans, the role that governs a path |
| `evidence`, `records`, `resolve` | evidence trees, flattening, projection of a record, lookup of a declared dimension |
| `visibility`, `coherence`, `exposure` | the two views of a record reconciled: what projection shows of the raw tree, position by position, and which declarations it can deceive |
| `comparison`, `comparison_theorems`, `losses`, `ordinary` | `compare_runs`, what an empty list of issues means, what exposed declarations can cost, and records the theorems apply to |
| `processes`, `process_runs` | the subprocess runner as a transition system of readers, child and main thread with a clock, and what its runs guarantee, read off their actions |
| `extraction`, `existing_tree`, `install`, `verified_install` | bounded extraction, the check of an installed tree, the two-rename installation, and the three together |
| `bundle` | the evidence bundle written by one or two processes that may die at any step |
| `execution`, `study`, `policies`, `verdict`, `receipt`, `end_to_end` | one run, a study, acceptance policies, the verdict, the worker's receipt, and the whole way from calls to verdict |
| `freeze`, `score`, `topk_spec`, `topk`, `aggregate`, `kvconfig` | the self-contained algorithms |

Loops and state changes of the source are methods proved against specification functions or stated outright; the
promises are lemmas about those functions and about every reachable state.

## Reading the main results

- **Fail-closed comparison.** `compare_runs` resolves declarations in the raw record and compares leaves of a projected
  record. `Visibility` gives every node of the raw tree a position (plain, hidden, resolved, observed, identity,
  component, invocations, row) and shows that projection followed by flattening shows exactly what is visible there.
  `Coherence` shows that a resolved dimension governs exactly the leaves below its name, which is what makes the skip
  of leaves under a direct control or block sound (`SkipLosesNothing`).
- **Exposed declarations.** The projection drops its special keys before ambiguity is checked, so the source does not
  flag a dotted extension of such a key. A declaration is `Exposed` when it names an excluded place, goes into
  `observed.invocations` (or names it where no row is compared), or names an identity component whose value carries a
  `source`. `TrustedIffUnexposed` shows that these are exactly the declarations at which the skip can lose a
  difference, whatever the records; `losses` holds a losing pair of records for every family of special keys, with the
  special key present and, where the family allows it, without it.
- **Regular records.** A plan that holds an exposed declaration can still be used on records that spell every special
  key as a single key and keep `invocations` a sequence (`RegularRecord`): `FailClosedExactly` asks for one or the
  other of every control and block.
- **Placeholders.** In the isolated mode the worker's own interrupt handler and the parent may each leave a failing
  placeholder, so the suffix property is not unconditional. It is lost exactly when the parent, which has placed
  nothing itself, publishes a placeholder for the candidate although the reference on disk is already one
  (`OnlyHandOverBreaks`); `MixedIsReachable` is a run in which that happens.
- **A status criterion** that expects `failed` or `skipped` is accepted by the policy constructor but can never be met
  (`UnmeetableStatusIsAccepted`).
- **Cleanup on exit.** The kill is attempted twice when the kill inside the loop fails, by raising or by an interrupt
  that arrives meanwhile, and otherwise exactly once. On every exit the child has exited and was waited for, except when
  the kill in the `finally` block itself fails or the wait expires, and those exits report it (`EveryExitCleansUp`);
  `TwoKillsAreReachable` is a run with two attempts that waits.

- **Computed and meant.** Where a method computes with the same function that its contract names, a lemma states
  what that function means in other terms: `StripExact`, `InheritedExactly`, `IssuesExactly`, `EstimateIsKl`,
  `HarmonicExactly`, `ParseIntExact`, `RootsAreFields`. Everything a run of the subprocess runner is said to report is
  read off the actions of the run (`RunIsTold`, `ReturnedOutputIsExact`, `ExitsTellTheTruth`).

## Modelling decisions

- Collaborators (adapters, measurements, analyses, sinks, the file system, the child process) are functions or
  arguments that may answer in every way the source handles, including exceptions and interrupts.
- Digests, the JSON encoding, case folding and upper-casing are uninterpreted functions; collision freedom appears
  only as a named hypothesis of `ReceiptPinsRecords`.
- Scores and divergences are exact reals. The exponential and logarithm are arguments with the laws that
  `TopKSpec.Logs.Laws` lists: positivity, the sum law, `x + 1 <= exp x` with equality only at zero, and `exp (ln x) == x`.
- Leaf values are compared as a plain equivalence.
- The clock of the subprocess runner is an integer that advances by 1 to `delta` at each turn of the loop.

## Model

| member | source | states |
|---|---|---|
| `Paths.CoversIsSegmentPrefix` | src/metria/comparison.py:83-86 | the textual prefix test on dotted strings holds exactly when the list of dotted segments is a prefix |
| `Paths.OverlapIffSharedPath` | src/metria/models.py:81-84 | two declarations overlap exactly when some path is covered by both |
| `Paths.DecimalExact` | src/metria/comparison.py:228-248 | the text of a sequence index is the one digit string without a leading zero whose digits, weighed by powers of ten, give the index |
| `Paths.StringLeIsLexicographic` | src/metria/comparison.py:309 | the order in which dimensions and leaves are visited: the first differing character decides, and a proper start comes first |
| `Stripping.StripExact` | src/metria/models.py:72 | a text is the stripped one exactly when it has no white space at either end and the original is white space, that text, and white space |
| `Plans.NormalizeDimensions` | src/metria/models.py:59-78 | said of the raw texts: accepts exactly when each, without the white space around it, is a dotted path without empty segments, and returns exactly those |
| `Plans.MakePlan` | src/metria/models.py:97-152 | said of the raw texts: a plan is built exactly when stripped dimensions and waivers are well formed, no reason is blank, analyses are distinct and not blank, and no declaration of one role overlaps one of another; it holds the stripped dimensions, and of each waived dimension the last reason given |
| `Plans.CoveringDeclarationsAgree` | src/metria/models.py:119-147 | in an accepted plan all direct declarations that cover one path have the same role |
| `Plans.RoleIsUnique` | src/metria/comparison.py:172-195 | at most one role match satisfies "longest covering declaration, else inheritance through the path's alias family": the answer is independent of sort ties |
| `Plans.MostSpecificIsUnique` | src/metria/comparison.py:161-195 | two longest covering declarations of one path are the same declaration in the same role |
| `Plans.InheritanceIsUnique` | src/metria/comparison.py:172-195 | inheritance through lifecycle aliases gives at most one role and declaration |
| `Plans.InheritedExactly` | src/metria/comparison.py:179-195 | a path inherits a role from a dimension exactly when nothing declared covers it, it is downstream evidence of that dimension, and the plan varies, controls or blocks by the dimension in that very role; waivers hand down nothing |
| `Plans.RoleReads` | src/metria/comparison.py:172-195 | what a role match says about the plan: direct exactly when a declaration covers the path, in the only role that has one; inherited variation exactly when nothing does and the path is downstream of a varied dimension |
| `Plans.AliasesDisjoint` | src/metria/comparison.py:63-80 | no path belongs to two alias families |
| `Plans.RoleForPath` | src/metria/comparison.py:172-195 | over any longest-first order of the declarations the loop returns the match that satisfies this relation, which `RoleIsUnique`, `InheritedExactly` and `RoleReads` pin |
| `Comparison.RoleDeclarations` | src/metria/comparison.py:161-169 | the sorted declaration list is a longest-first order of exactly the plan's declarations |
| `Evidence.Flatten` | src/metria/comparison.py:198-225 | fails exactly when some mapping in the tree holds a key and a dotted extension of it, and then names such a place; otherwise the dictionary holds exactly the leaves of the tree, none lost by `update` |
| `Evidence.LeavesAntichain` | src/metria/comparison.py:198-225 | in an unambiguous tree no leaf path covers another: distinct leaves have distinct, incomparable paths |
| `Evidence.SharedPathMeansSameKey` | src/metria/comparison.py:206-223 | under prefix-free keys the subtrees of two keys never share a path |
| `Evidence.CoveringKey` | src/metria/comparison.py:206-215 | the scan of dotted prefixes finds a covering key exactly when there is one |
| `Coherence.RecordPathLeadsBack` | src/metria/comparison.py:297-316 | every visible leaf of an unambiguous record, looked up in its roots by its full path, is found again |
| `Resolve.ResolveByLoop` | src/metria/comparison.py:106-152 | the loop over `current` and `index` computes the lookup specification for every dimension |
| `Resolve.ResolveIsTreeWalk` | src/metria/comparison.py:106-152 | a found dimension is the longest-key walk through one tree holding requested, resolved and observed evidence |
| `Resolve.LongestKey` | src/metria/comparison.py:89-103 | the lookup takes the longest joined prefix that is a key, and nothing longer is one |
| `Resolve.RootsAreFields` | src/metria/comparison.py:106-125 | a dimension of one segment is the field of the request with that name, or the resolved or observed mapping; every other name is unknown |
| `Records.InvocationIdentity` | src/metria/comparison.py:228-248 | a result exactly when some row carries identity fields; it then holds exactly the rows that do, each under its own decimal index with just those fields |
| `Visibility.ProjectionIsVisibility` | src/metria/comparison.py:228-316 | the leaves of the projected roots are exactly the leaves of the raw record that are visible from their position |
| `Coherence.DimensionGovernsItsValue` | src/metria/comparison.py:106-152 | in a regular, unambiguous record the flattened leaves covered by a resolved dimension are exactly the visible leaves of the value found |
| `Coherence.CoherentDimension` | src/metria/comparison.py:319-358 | two records that resolve a dimension to the same value have the same leaves below it, unless one of them reached it through a sequence index |
| `Coherence.DimensionEndsWhereNamed` | src/metria/comparison.py:106-152 | a resolved dimension sits at the position its name says, unless an ancestor is a sequence |
| `Ordinary.FlatRecordIsOrdinary` | src/metria/comparison.py:271-294 | every record of atomic values under dot-free keys is regular and unambiguous, so the comparison theorems apply to it |
| `Comparison.CheckDeclared` | src/metria/comparison.py:319-358 | the declared-dimension loop yields one issue per declared dimension that is unknown, missing on a side, or unequal under control or block |
| `Comparison.CheckLeaves` | src/metria/comparison.py:428-486 | the loop over differing leaves yields exactly the leaf issues and waived differences, in path order |
| `ComparisonTheorems.WaivedExactly` | src/metria/comparison.py:442-469 | a leaf is kept as waived exactly when both sides are present and differ and a waiver is its most specific declaration, with both values and that waiver's reason |
| `ComparisonTheorems.IssuesExactly` | src/metria/comparison.py:319-486 | the issues of a report, for all records: the status issue, one for each declared dimension that is unknown, missing, or unequal under control or block, and one for each undeclared leaf that differs, each with what the two sides show and the reason in its role; of an ambiguous record, its ambiguous path instead of leaves |
| `Comparison.CompareMetrics` | src/metria/comparison.py:488-500 | shared metrics are comparable exactly when all five identity fields agree |
| `Comparison.CompareRuns` | src/metria/comparison.py:361-508 | issues are the status, declaration and leaf issues in that order, which `IssuesExactly` and `WaivedExactly` state one by one; `compatible` holds exactly without issues and without incompatible metrics |
| `ComparisonTheorems.IssuesEmptyIffIssueFree` | src/metria/comparison.py:361-508 | for all records: no issues exactly when both runs completed, both flatten, every declaration is satisfied and every leaf is |
| `Exposure.UnexposedAgree` | src/metria/comparison.py:271-294 | at a declaration that is not exposed, equal raw values show equal leaves below it in all unambiguous records, however their keys are spelled, unless a sequence index is in the way |
| `Losses.TrustedIffUnexposed` | src/metria/comparison.py:470-473 | every issue-free comparison under a control explains every difference, whenever the control resolves to this value on both sides, exactly when the declaration is not exposed |
| `Losses.ExposedLoses` | src/metria/comparison.py:39-58 | every exposed declaration, with every value it may find, has two issue-free records that differ below it: excluded resolved and observed keys, `invocations`, `reasons`, `source`, and components with a source |
| `Losses.WithoutBaseFamily` | src/metria/comparison.py:39-47 | the same for excluded root keys when one side has no such key, only one dotted key that spells the whole path |
| `Losses.ReasonsWithoutBase` | src/metria/comparison.py:251-268 | the same for paths below `reasons` |
| `Losses.SourceWithoutBase` | src/metria/comparison.py:251-268 | the same for paths below the `source` of a component |
| `ComparisonTheorems.FailClosedExactly` | src/metria/comparison.py:361-486 | when no control or block is exposed, or the records are regular: no issues exactly when every declaration resolves as its role demands and every leaf is equal, covered by a varied or waived dimension, or, covered by nothing declared, downstream evidence of a varied dimension and present on both sides |
| `ComparisonTheorems.SkipLosesNothing` | src/metria/comparison.py:470-473 | under the same condition: where an issue-free comparison skips a leaf under a direct control or block, both sides agree on that leaf |
| `Losses.HiddenKeyExtensionLoses` | src/metria/comparison.py:40-47 | every completed record with an excluded observed key and a dotted extension of it has an issue-free partner that differs there |
| `ComparisonTheorems.IssueFreeIsCanonicalEquality` | src/metria/comparison.py:361-508 | under one plan, ready records are issue-free exactly when their canonical forms are equal |
| `ComparisonTheorems.IssueFreeIsEquivalence` | src/metria/comparison.py:361-508 | being issue-free is reflexive, symmetric and transitive on ready records |
| `ComparisonTheorems.CompatibleIsSymmetric` | src/metria/comparison.py:502-508 | `compatible` does not depend on the order of the two records, whatever their state |
| `ComparisonTheorems.CompatibleFlag` | src/metria/comparison.py:361-508 | the flags computed in both orders are equal and mean compatibility |
| `Processes.StepKeepsInv` | src/metria/processes.py:55-79 | every action of a reader, the child or the main thread keeps the channel, queue and control invariant |
| `ProcessRuns.NoOutputLost` | src/metria/processes.py:55-79 | before the stop flag: bytes read equal handled, queued and held bytes in order, and the sentinel comes once, last |
| `ProcessRuns.ReturnedOutputIsExact` | src/metria/processes.py:229-234 | on normal return each stream reached its end, the retained buffer is a start of all bytes the pipe delivered in the run, as long as the limit allows, and truncation is reported exactly when there were more |
| `ProcessRuns.ReturnedCleanly` | src/metria/processes.py:206-264 | a normal return killed the tree once, waited for a child that had exited, left each reader finished, and nothing failed in the run; a timeout is reported exactly when the child had not exited before the first turn of the loop that found it gone or the time up |
| `ProcessRuns.RunIsTold` | src/metria/processes.py:206-219 | the account of every run, by its actions: the clock is the sum of the turns; no turn was due while the runner waits; once the wait has ended, the first due turn ended it, with the timeout flag and the cleanup deadline of that turn |
| `ProcessRuns.ExitsTellTheTruth` | src/metria/processes.py:194-273 | an interrupt, a failed start, callback, wait or reader is never swallowed, and every failure that is raised did happen in the run, or a reader was alive at the end |
| `ProcessRuns.NormalReturnIsReachable` | src/metria/processes.py:194-273 | a child that writes any bytes up to one chunk and exits in time leads to a normal return that holds them: the statements about normal returns are not empty |
| `ProcessRuns.TimedOutReturnIsReachable` | src/metria/processes.py:206-219 | a child that writes the same and does not exit by itself leads to a normal return that reports the timeout |
| `ProcessRuns.EveryExitCleansUp` | src/metria/processes.py:239-262 | every exit, normal or not: the tree was killed once, or again after a failed kill in the loop; the stop flag is set; the child exited and was waited for, or the last kill failed, or the wait expired, and then that or a reader still alive is what is raised; cleanup had the one deadline set by the first attempt |
| `ProcessRuns.TwoKillsAreReachable` | src/metria/processes.py:206-264 | a run in which the kill in the loop fails, either way, and the one on exit succeeds: the second attempt is real, and the child is waited for |
| `ProcessRuns.LoopIsBounded` | src/metria/processes.py:206-238 | with a clock that advances each turn by 1 to delta, time, turns and main-thread steps stay below timeout + cleanup + O(delta) |
| `ProcessRuns.MainCanAct` | src/metria/processes.py:194-262 | the main thread is never stuck: some step of its own is possible until it is done |
| `Extraction.CopyHash` | src/metria/artifacts.py:70-84 | returns exactly when the rest of the stream fits the limit, with its digest and size; otherwise at most `limit` bytes of it were written |
| `Extraction.RelativeName` | src/metria/artifacts.py:205-224 | accepts exactly non-empty names of visible, portable characters whose parts are not empty, `.` or `..`, do not end in a space or dot, and name no device before their first dot |
| `Extraction.SafeNameStaysBelow` | src/metria/artifacts.py:205-224 | a name that passes the checks walks strictly down from any root, one directory per part |
| `Extraction.AncestorPrecedes` | src/metria/artifacts.py:292-299 | the parents of a name are exactly its proper starts before a slash |
| `Extraction.CheckAllowlist` | src/metria/artifacts.py:278-299 | accepts exactly non-empty allowlists of safe, pinned names whose destinations clash neither as files nor as file and directory |
| `Extraction.PlanMembers` | src/metria/artifacts.py:322-358 | the planning loop accepts exactly the archives with safe, distinct, expected members within the limit and none missing |
| `Extraction.PlanIsBijection` | src/metria/artifacts.py:357-358 | an accepted plan maps members to allowlist entries one to one and onto |
| `Extraction.ExtractAll` | src/metria/artifacts.py:359-368 | extraction succeeds exactly when the total size fits and every digest and size matches, and then installs each planned content |
| `Extraction.BuildTree` | src/metria/artifacts.py:278-368 | end to end: succeeds exactly on a safe allowlist, a matching archive, fitting sizes and pinned digests, and yields exactly the verified tree |
| `ExistingTree.CheckExistingTree` | src/metria/artifacts.py:227-255 | the worklist accepts a tree exactly when every reachable entry is an allowlisted regular file or a parent directory of one, with no reparse point |
| `ExistingTree.AllOkMeansEveryEntry` | src/metria/artifacts.py:240-255 | the recursive check is the same as the statement about every path of names |
| `VerifiedInstall.ExtractVerified` | src/metria/artifacts.py:258-385 | check of the existing tree, extraction and installation together: a normal return leaves the verified tree at target and nothing else; wherever it stops, the old directory is kept unless the verified tree took its place; it raises exactly on an unexpected target, an archive that does not pass, or a failing call |
| `Install.Workspace.Install` | src/metria/artifacts.py:369-385 | every state in which execution can stop keeps the old tree at target or previous unless target is the new tree; exactly which calls make it raise; target is the new tree when it could be promoted, and the old one when it was never moved aside or moving it back took effect; the workspace is discarded whenever target is in place |
| `Bundle.StepKeepsInv` | src/metria/verification.py:278-299 | every step of either process keeps write-once publication, publication order and separation of temporaries |
| `Bundle.PublishedForever` | src/metria/_files.py:7-12 | a published record, report, manifest or verification is whole and never changes in any continuation of any run |
| `Bundle.ReceiptComesAndGoes` | src/metria/verification_worker.py:279-281 | the receipt is published by the worker, as its third document, and taken away by the parent after the records; no other step touches it, and that step touches nothing else |
| `Bundle.ParentLooksFirst` | src/metria/verification_worker.py:84-115 | in every run the parent writes a stand-in only for a record that it has looked for and not found |
| `Bundle.WorkerMarks` | src/metria/verification.py:526-544 | in every run each placeholder of the worker says interrupted or cancelled |
| `Bundle.VerificationImpliesBundle` | src/metria/verification.py:687-701 | a candidate record implies a reference record; verification.json implies manifest, report and both records |
| `Bundle.CompleteBundleIsReachable` | src/metria/verification.py:687-701 | any five documents can become a complete bundle |
| `Bundle.OnlyHandOverBreaks` | src/metria/verification_worker.py:84-115 | in every reachable state, a step makes the placeholders something else than a failing-then-cancelled suffix exactly when the parent, having placed none, publishes the candidate's although the reference on disk is one; no other step does |
| `Bundle.SuffixUnlessHandedOver` | src/metria/verification_worker.py:84-115 | over whole runs of both processes: the placeholders form such a suffix exactly when no such step was taken |
| `Bundle.LocalSuffix` | src/metria/verification.py:526-544 | with one process the placeholders always form such a suffix |
| `Bundle.MixedIsReachable` | src/metria/verification_worker.py:232-281 | a concrete run in which worker and parent each leave a failing placeholder |
| `Execution.ExecuteRun` | src/metria/execution.py:118-430 | for all answers of the collaborators: exactly the reachable calls, each once and in order; interrupts propagate; the status follows the measurement first; a problem event exactly without completion |
| `Execution.ClosedExactlyOnce` | src/metria/execution.py:402-409 | close is called once, last, exactly when launch returned |
| `Execution.LifecycleIsDetermined` | src/metria/execution.py:118-430 | the answers determine trace and outcome: the lifecycle promise leaves no freedom |
| `Execution.CompletedMeansEverythingReturned` | src/metria/execution.py:411-416 | COMPLETED exactly when the session was closed and every call made returned |
| `Study.AnalyzePair` | src/metria/study_execution.py:181-224 | outcomes follow the declared order: skipped exactly when not compatible, failed exactly when the analyzer raised; no analyzer runs on an incompatible pair |
| `Study.RunIdReads` | src/metria/study_execution.py:297 | a run's identifier is `run-` and its index in at least four digits |
| `Study.PairsExact` | src/metria/study_execution.py:311 | every unordered pair of runs once, earlier run first, in lexicographic order, n(n-1)/2 in all |
| `Study.ExecuteRuns` | src/metria/study_execution.py:293-308 | the sink holds exactly the records of the first runs, bound to their requests; the study stops at the first run that raises, answers for another run, or cannot be stored |
| `Study.ExecuteStudy` | src/metria/study_execution.py:240-332 | a finished study has every record and every pair with its compatibility and analyses; otherwise the first failure decides how it ended |
| `Policies.MakePolicy` | src/metria/policies.py:297-312 | accepted exactly with at least one criterion, all well formed, targets distinct |
| `Policies.Observe` | src/metria/policies.py:396-473 | a value is observed exactly when one analysis has the name, matches version and methodology, is completed, and shows it: its status, a documented flag, or a number that is the documented value over the divisor, of the exact metric identity, with full coverage and within the domain |
| `Policies.ObservationIsUnique` | src/metria/policies.py:396-473 | a target never shows two values |
| `Policies.EvaluatePolicy` | src/metria/policies.py:497-545 | PASS exactly when every criterion is observed and met, INSUFFICIENT exactly when one is not observed, FAIL exactly otherwise, and the same of each row for its criterion; nothing is evaluated unless verified |
| `Policies.NumberMetExactly` | src/metria/policies.py:434-521 | a numeric criterion is met exactly when the only analysis of its target's name documents the exact metric, fully covered, and value over divisor lies within the domain, at least the minimum and at most the maximum, where given |
| `Policies.FactMetExactly` | src/metria/policies.py:426-432 | a boolean criterion is met exactly when that analysis documents the fact with the expected truth value |
| `Policies.StricterNeverPasses` | src/metria/policies.py:514-545 | raising minima and lowering maxima never turns FAIL into PASS and leaves what can be observed alone |
| `Policies.AmbiguityIsInsufficient` | src/metria/policies.py:399-401 | a second analysis under a targeted name turns any decision into INSUFFICIENT |
| `Policies.IrrelevantAnalysisIsIgnored` | src/metria/policies.py:497-545 | an analysis that no criterion targets never changes the decision |
| `Policies.UnmeetableStatusIsAccepted` | src/metria/policies.py:263-273 | the constructor accepts a status criterion that expects "failed" or "skipped", and no analyses can meet it |
| `Policies.StatusCriterionNeedsCompletion` | src/metria/policies.py:408-414 | a status criterion is met exactly when it expects "completed" and the analysis is: expecting "failed" or "skipped" can never pass |
| `Verdicts.Gate` | src/metria/verification.py:546-568 | the ladder: VERIFIED, NOT_COMPARABLE and EXECUTION_FAILED exactly under their conditions, INSUFFICIENT_EVIDENCE otherwise |
| `Verdicts.VerifiedIsSound` | src/metria/verification.py:261-275 | completed analyses behind the evidence check mean a sound pair: complete, without gaps, compatible, every real analyzer answered |
| `Verdicts.VerifyWithProfile` | src/metria/verification.py:507-576 | over every study outcome: each gate of the manifest exactly under its condition on the records, with exit code and analyses to match; interrupts leave placeholders after the saved records |
| `Receipts.ReadReceipt` | src/metria/verification_worker.py:36-81 | accepts exactly receipts whose identity, code, verdict, digests, statuses and paths agree |
| `Receipts.ProducedIsAccepted` | src/metria/verification_worker.py:51-80 | every manifest the verifier can produce passes every check of the parent |
| `Receipts.VerdictCodes` | src/metria/verification.py:61-69 | code 0 exactly for VERIFIED and PASS, 1 for FAIL, 3 for NOT_COMPARABLE, 4 for insufficient evidence, 5 for a failed execution, 130 for an interrupt; codes 0 and 1 only for sound pairs |
| `Receipts.AcceptedConclusive` | src/metria/verification_worker.py:75-80 | an accepted success code belongs to two completed records of this recipe |
| `Receipts.ReceiptPinsRecords` | src/metria/verification_worker.py:69-74 | under the named hypothesis that record digests do not collide, a receipt fixes both records |
| `Receipts.PartialRecords` | src/metria/verification_worker.py:84-115 | keeps records found, refuses foreign ones, and gives the failing status to the first missing run only |
| `Receipts.VerifyIsolated` | src/metria/verification_worker.py:232-281 | the parent publishes the worker's conclusion exactly when it accepts the receipt, and a failure otherwise |
| `EndToEnd.VerifyLive` | src/metria/verification.py:507-576 | run, study and verifier composed, for all answers of the collaborators: VERIFIED, PASS or FAIL means that both sessions were launched, measured, observed, closed once, and nothing raised, that both records are complete without gaps and comparable, and that every analyzer answered; PASS or FAIL also that every criterion was observed, and PASS exactly that all are met |
| `Verdicts.PolicyVerdictIsGrounded` | src/metria/policies.py:396-473 | PASS or FAIL means a sound pair and every criterion observed in the only analysis of its name, with the exact metric identity, full coverage and the number shown; PASS exactly when all are met |
| `Freeze.Freezer.Freeze` | src/metria/_freeze.py:14-72 | the recursion over the shared active set computes the specification and restores the set on every exit, on every finite graph |
| `Freeze.UnfoldingIsUnique` | src/metria/_freeze.py:37-65 | a value has at most one immutable unfolding |
| `Freeze.FreezeIsUnfolding` | src/metria/_freeze.py:14-72 | freezing returns a tree exactly when that tree is the unfolding of the value, sharing allowed |
| `Freeze.FrozenFreezesToItself` | src/metria/_freeze.py:17-25 | every frozen result, laid out as the containers it consists of, freezes to itself |
| `Freeze.ResultsAreHashingTrees` | src/metria/_freeze.py:14-72 | the values freezing can return are exactly the immutable trees whose sets hold hashable values only |
| `Freeze.FreezeIsIdempotent` | src/metria/_freeze.py:17-25 | freezing any containers that hold a frozen result gives that result again |
| `Freeze.FreezeSucceedsIffNoDefect` | src/metria/_freeze.py:32-72 | a container freezes exactly when no path from it repeats a container, ends in an unsupported key or object, or leads from a set to a mapping |
| `Score.ClipIsNoOp` | src/metria/fidelity/score.py:39-40 | for scores in (0, 100] neither clip changes the mean |
| `Score.HarmonicExactly` | src/metria/fidelity/score.py:31-40 | the composite times the sum of the axes' reciprocals is the number of axes, unless that exceeds 100 |
| `Score.ZeroIff` | src/metria/fidelity/score.py:33-37 | the mean is zero exactly for no axes or an axis that is not positive |
| `Score.AtLeastMinimum` | src/metria/fidelity/score.py:31-40 | the composite is at least the worst axis |
| `Score.AtMostTimesAnyAxis` | src/metria/fidelity/score.py:3-5 | the composite is at most n times any axis |
| `Score.BelowArithmeticMean` | src/metria/fidelity/score.py:3-5 | the composite never exceeds the arithmetic mean |
| `Score.Monotone` | src/metria/fidelity/score.py:31-40 | raising axes never lowers the composite |
| `Score.OrderFree` | src/metria/fidelity/score.py:182-191 | the order of the axes does not matter |
| `Score.AppendedAxis` | src/metria/fidelity/score.py:173-191 | adding an axis keeps or raises the composite exactly when the axis is at least the composite |
| `Score.StubNeverLowers` | src/metria/fidelity/cli.py:743-747 | scoring a skipped axis 100 anywhere in the order never lowers the composite, so dropping it is the conservative choice |
| `Score.OneBadAxisFails` | src/metria/fidelity/score.py:43-50 | with at most four axes one axis under 15 puts the composite in the FAIL band |
| `Score.CompositeScore` | src/metria/fidelity/score.py:166-211 | the composite is the mean of exactly the axes that were run; the band is EXCELLENT from 90, PASS from 80, DEGRADED from 60, else FAIL; a measured floor leaves both alone, and is noted exactly when it is below 99.5 |
| `TopK.FullTokenChunks` | src/metria/fidelity/measurement_math.py:11-29 | the chunks are the consecutive blocks from the front, as many as fit and at most the limit |
| `TopK.NormalizedIsDistribution` | src/metria/fidelity/measurement_math.py:46-51 | the normalised vector with its omitted-mass bucket is positive and sums to one |
| `TopK.Gibbs` | src/metria/fidelity/measurement_math.py:93-95 | the divergence is at least the difference of the two masses, with equality only for equal vectors |
| `TopKAggregate.EstimateIsDivergence` | src/metria/fidelity/measurement_math.py:54-98 | the estimate is never negative, and zero exactly when both normalised sides agree |
| `TopKAggregate.EstimateIsKl` | src/metria/fidelity/measurement_math.py:84-98 | the estimate is KL(reference to candidate): the sum of `exp(P) * (P - Q)` over the ascending identifiers of both sides and the bucket, where `exp(P)` is the reference's and `exp(Q)` the candidate's distribution |
| `TopKAggregate.ApproximateTopKKl` | src/metria/fidelity/measurement_math.py:54-98 | succeeds exactly on non-empty, non-positive log-probabilities, and then returns that divergence of the candidate from the reference; the final clamp never fires |
| `TopKAggregate.TallyBalances` | src/metria/fidelity/measurement_math.py:122-187 | every position is scored or skipped, top hits are among the scored, the total is not negative |
| `TopKAggregate.AggregateTopKKld` | src/metria/fidelity/measurement_math.py:101-216 | succeeds exactly on aligned, usable responses with a scored position; each failure names its cause and place; the metrics are what `MetricsAreMeant` says of the positions |
| `TopKAggregate.MetricsAreMeant` | src/metria/fidelity/measurement_math.py:166-216 | the mean is that of one divergence for each scored position, the deviation that of one squared relative change for each token with probability above 1e-9, the percentage that of the positions whose first most probable tokens agree; counters account for every position |
| `TopKAggregate.MetricsAreInRange` | src/metria/fidelity/measurement_math.py:196-216 | mean divergence is not negative, the percentage is between 0 and 100, the counters add up |
| `TopKAggregate.SelfComparison` | src/metria/fidelity/measurement_math.py:101-216 | a response compared with itself has no divergence and the same top token everywhere |
| `TopKAggregate.RechunkingIsNeutral` | src/metria/fidelity/measurement_math.py:130-187 | where chunk boundaries fall does not change the tally |
| `KVConfig.Parse` | src/metria/fidelity/runner.py:111-134 | the loop returns what the text says, fragment by raw fragment: fields with the value of their key's last fragment or the default, extras in order of first occurrence with their last values; otherwise the first refused fragment decides the error |
| `KVConfig.TextMeans` | src/metria/fidelity/runner.py:114-133 | that statement for every text: refused exactly at the first fragment that shows something without `=`, or whose integer field has something else; keys and values are what stands around the first `=`, without the white space around them |
| `KVConfig.ParseIntExact` | src/metria/fidelity/runner.py:126-131 | an integer field takes exactly decimal digits in groups joined by underscores after at most one sign, and their value by powers of ten |
| `KVConfig.Label` | src/metria/fidelity/runner.py:154-165 | the label is `ctk=`, `ctv=`, the integers that are set and the extras in order, each as `key=value`, with commas between |
| `KVConfig.LabelRoundTrip` | src/metria/fidelity/runner.py:111-165 | parsing the label of any configuration that parsing can produce gives that configuration |
| `KVConfig.ParsedIffValid` | src/metria/fidelity/runner.py:111-134 | the configurations some text parses to are exactly those with clean, distinct, unreserved keys and clean values |
| `KVConfig.ParseLabelParse` | src/metria/fidelity/runner.py:111-165 | for every accepted text, parse of label of parse is parse |
| `KVConfig.Reparse` | src/metria/fidelity/runner.py:111-165 | the two methods composed return the first result again |

## Left out

- Leaf equality ignores NaN and the identification of `1`, `1.0` and `True` that Python equality makes.
- Dataclass attributes are modelled as mappings; sequence indices accept ASCII digits only, and `KVConfig` integers likewise.
- Comparison.CheckLeaves: a leaf missing on one side under a direct waiver is skipped without being recorded, as in the source, so retention of waived differences holds only for leaves present on both sides.
- ComparisonTheorems.FailClosedExactly: asks that every control and block is not exposed, or that both records are regular; `TrustedIffUnexposed` shows that an exposed declaration alone admits a lost difference.
- Losses.WithoutBaseFamily: only for unambiguous values; shown under a dotted key, an ambiguous one is reported as such. `ExposedLoses` covers every value.
- EndToEnd.VerifyLive: works out both runs' answers before the study asks for them, which no run can notice.
- ProcessRuns.LoopIsBounded: bounds the loop and the main thread's own steps; the clock is not advanced inside the final cleanup, whose waits are bounded by the cleanup deadline.
- In the subprocess runner, text decoding, the content passed to the output callback, a failing `pipe.close()`, interrupts inside `finally` outside its kill, and one between starting a reader and recording it are not modelled.
- Bundle.PublishedForever: leaves out the receipt, which the parent removes on purpose.
- The bundle theorems are safety statements: a temporary left by a killed worker can make the parent's write fail, and then no bundle appears.
- Verdicts.VerifyWithProfile: `evidence_gaps` and metric serialisation errors are arbitrary functions of a record and an analysis; the rest of the manifest is presentation data. An interrupt between writing a record and remembering it is not modelled.
- Receipts.ReadReceipt: the size limit and the parsing of the receipt are folded into whether there is a receipt at all.
- Install.Workspace.Install: the outcome of the repeated check of an existing target is one boolean; `ExtractVerified` computes it. A single writer is assumed, as the source's renames do.
- Extraction builds the ready tree as a map from destination to bytes; `verify_artifact` and fetching are not modelled.
- VerifiedInstall.ExtractVerified: leaves out the fast path that returns an existing cache when every file in it verifies.
- Freeze.Freezer.Freeze: a mapping yields each key once; containers whose iteration itself raises are not modelled.
- Containers and dictionaries are immutable values where nothing is updated in place through them: `Config`, `Tally` and `Main` are updated as values, so aliasing of those objects is not captured.
- The order of dictionary keys is not kept in frozen mappings.
- Floating-point rounding, overflow and non-finite intermediate results in scores and divergences.
- Execution.ExecuteRun: an adapter that returns no session object, and blank study or run names, which raise before any call.
- Study registries: the checks of registry keys, names and versions before the first run appear as the precondition `Validated`.
- Profile validators, recipe and record parsing, identity evidence and capability registries: long conjunctions of single-branch checks.
- Runtime adapters, hardware probing, HTTP, Windows job objects: foreign calls.
- Rendering, argument parsing, onboarding, demo and pilot commands, `interpret_pattern`: presentation.
