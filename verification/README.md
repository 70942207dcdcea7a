# Test accounting, migration and stream health: a verified model

This project models the algorithmic core of the repository's verification tooling and proves what that
tooling is relied on for. One module, or a small group of modules, follows each source file:

- `RunSchedule`, `RunScheduleSafety`, `RunScheduleTheorems`, `RunScheduleOutcomes`, `RunAuthority`: the lanes that run
  the selected suites, park behind a dirty checkout, and seal the finished runs once the checkout was judged at rest.
- `ProcessGroups`, `ProcessGroupHistory`: the registry of live process groups, whose numbers the system reuses.
- `Capture`, `CaptureTheorems`, `CaptureHistory`, `CaptureHandlers`: capturing one leaf's output, where writes, timers,
  the exit and the closed pipes race to settle.
- `HeaderSpec`, `HeaderScanner`, `HeaderCost`, `HeaderSafety`: the scanner that redacts structured headers under a
  work budget. `HeaderNames`, `HeaderPromises`, `HeaderPairs`: which texts it redacts, and that it redacts no others.
  `HeaderKeys`, `HeaderRescan`, `HeaderValues`, `HeaderIdempotence`, `HeaderTwice`: what a second scan
  makes of the output of a first one.
- `EventLines`, `EventAccumulator`, `EventTheorems`, `EventCounts`: counting reporter events from arbitrary chunks.
- `ImportGraph`, `FastSelection`: the tests an edit can affect.
- `StableJson`, `StableJsonTheorems`, `StableJsonGrammar`, `Glob`, `GlobTheorems`, `InventoryPlan`, `ReceiptLedger`,
  `ReceiptPaths`: canonical texts, inclusion globs, ownership of test files, receipts and the ledger of claimed runs.
- `UnionFind`, `HelperFamilies`: connected components of files and helper keys.
- `MagicString`, `MagicStringTheorems`, `CatchRewrite`, `CatchText`, `CatchPlan`, `CatchFile`, `CatchMeaning`,
  `CatchEvaluation`, `CatchTheorems`: the splice editor and the narrowing of caught values.
- `StreamHealth`, `StreamHealthTheorems`, `StreamHealthFindings`, `StreamHealthAudit`: the classifier, the findings,
  the score and the verdict.

Code that updates variables is a class or a method with loops, proved against a specification function; the
theorems are about that function. Where a specification function decides something, another member says the same
from outside: by the history of events, by the characters of the text, by the globs, or by the rows of the fleet.
`dafny verify dfyconfig.toml` checks everything.

## Assumptions about the environment

- A step of a schedule is the code between two awaits. A lane that returns from `finishRun`, or is released from
  its rest, takes its next run in that same step: Node drains all pending continuations before the next input or
  output is delivered. The checkout may change, and become unreadable, between any two steps.
- A destroyed or closed pipe delivers no more data, a timer fires only while armed, and a child keeps its process
  number. Whether a kill lands, a write succeeds or a digest matches is decided by the environment, in every way.
- Creating a file exclusively succeeds for exactly one of those who try.
- A manifest read from disk has distinct suite ids, globs and exclusion paths are held as normalization leaves
  them, and every specifier resolves to a tracked file or a package marker.

## Where the code and its documentation differ

- The scan budget is described as a fixed linear multiple behind a scanner that is linear by construction
  (`scripts/test-accounting/node-reporter.ts:36-44`). Factor 8 is enough without backslashes, and for every text with
  at most three quotes and backslash runs in seventeen characters; a text of escaped quotes only, which holds no
  header, exhausts it exactly from the eleventh quote on. A bound of 36 times the length holds for all inputs.
- The closing backslashes of a redacted value are dropped (`scripts/test-accounting/node-reporter.ts:512`). Scanning the
  result of a completed scan again returns it unchanged exactly when no closed value opens behind a backslash;
  otherwise the value no longer closes where it did, and the second scan gives up or loses a quote.
- A header name that stands as a quoted value, as in `{"x":"cookie"}`, is taken for a key without a value, and the whole
  field is replaced by the marker for a malformed header.
- Skip reasons are said to account for every skip. A reason that every object inherits as a property name, such as
  `constructor`, is not counted as a number (`scripts/test-accounting/receipt.ts:479`).
- The splice editor is said to hold non-overlapping edits. An empty edit recorded after a non-empty one with the same
  start is accepted and makes the pass go back, so that replaced text appears again.
- Narrowing is said to be semantically identical for every value
  (`scripts/test-migration/catch-clause-narrowing.ts:22-28`). It is for Errors. A value that is no Error keeps its runs
  exactly when `String` makes of it what its message reads as.
- The narrowing is described as refusing what it cannot handle. Two nested eligible clauses with the same name both plan
  the accesses in the inner one, and the splice editor throws
  (`scripts/test-migration/catch-clause-narrowing.ts:223-257`).
- The inventory check tests for files with multiple owners (`scripts/test-accounting/inventory.ts:662-667`). After the
  checks before it, that test can never fail.

## Model

| member | source | states |
|---|---|---|
| RunScheduleTheorems.SealedOnlyAfterCleanRest | scripts/test-accounting/authority.ts:1258-1311 | in every reachable state a run that is sealed, or being sealed, was judged at an instant after it finished at which no run executed, the checkout was clean and its digest equalled the starting one |
| RunScheduleTheorems.SealedBeforeNextStarts | scripts/test-accounting/authority.ts:1230-1238 | with concurrency 1, whenever a run executes, every run that started before it is already sealed |
| RunScheduleTheorems.DirtyRunBlocksStarts | scripts/test-accounting/authority.ts:1288-1297 | after a run leaves a dirty checkout, no lane starts a run until a later judgement at rest finds the checkout clean |
| RunScheduleTheorems.ParkedLaneWillWake | scripts/test-accounting/authority.ts:1245-1257 | whenever a lane is parked, some lane executes a run or settles a batch, so somebody is left to release it |
| RunScheduleTheorems.NeverStuck | scripts/test-accounting/authority.ts:897-924 | no reachable state is a deadlock: either everything has ended or a lane has a step to take |
| RunScheduleTheorems.EveryScheduleEnds | scripts/test-accounting/authority.ts:897-924 | every schedule ends: whatever is done to the checkout, the lanes take at most three steps a run and one a phase |
| RunScheduleTheorems.EndedMeansSealed | scripts/test-accounting/authority.ts:1298-1318 | at the end every completed run is sealed unless a judgement or a receipt failed, which is then an error; unless something halted the schedule, every run was started and sealed |
| RunScheduleTheorems.StartsInOrder | scripts/test-accounting/authority.ts:903-919 | at most `limit` runs execute at once, and the runs started so far are a prefix of the phases in order |
| RunScheduleTheorems.NoStartAfterStop | scripts/test-accounting/authority.ts:907-919 | once the schedule has been stopped or has an error, no further run starts; what stops it is said by `FailedRunStopsStarts` and `EveryErrorHasItsCause` |
| RunScheduleTheorems.PhasesShareOutRuns | scripts/test-accounting/authority.ts:881-890 | the phases hold exactly the selected runs, none lost and none twice |
| RunScheduleTheorems.PhasesRunnable | scripts/test-accounting/authority.ts:881-890 | every schedule of phases can be run, and concurrency 1 keeps the exact manifest order |
| RunScheduleTheorems.PreparedRunsAlone | scripts/test-accounting/authority.ts:869-890 | in every reachable state, a run whose suite has a prepare step executes with no other run beside it |
| RunScheduleSafety.ReachableInv | scripts/test-accounting/authority.ts:1239-1318 | the counters, the ledger of sealed and unsealed runs, the order of starts and the lanes agree in every reachable state |
| RunAuthority.Authority.Worker | scripts/test-accounting/authority.ts:907-919 | a lane that is about to go on takes the next run or ends, exactly as the transition system says |
| RunAuthority.Authority.OpenPool | scripts/test-accounting/authority.ts:920-923 | opening a phase starts min(limit, runs) lanes, each of which takes a run |
| RunAuthority.Authority.FinishRun | scripts/test-accounting/authority.ts:1272-1311 | a run that returns or throws: the new state is the transition system's, lanes it releases included; a run that did not pass stops the schedule (`FailedRunStopsStarts`) |
| RunAuthority.Authority.JudgeAtRest | scripts/test-accounting/authority.ts:1258-1307 | the last run to leave judges the checkout and either seals the batch or stops and releases the parked lanes |
| RunAuthority.Authority.FinishSettle | scripts/test-accounting/authority.ts:1265-1311 | a settled batch ends the rest and passes on the failure of the run that settled it |
| RunAuthority.Authority.AbortSettle | scripts/test-accounting/authority.ts:1302-1307 | a receipt that cannot be written stops the schedule and still releases the parked lanes |
| RunAuthority.Authority.RefuseCheckout | scripts/test-accounting/authority.ts:1302-1307 | a checkout that is not as it began stops the schedule with an error |
| RunAuthority.Authority.EndRest | scripts/test-accounting/authority.ts:1245-1254 | ending the rest clears the suspicion and lets every parked lane go on |
| ProcessGroups.SignalsOnlyOwnGroups | scripts/test-accounting/authority.ts:222-262 | over any history of spawns, kills, releases and reused numbers, a signal goes only to a group the registry gives to the tracker that sends it, and that tracker has not stopped |
| ProcessGroups.RemovesOnlyOwnEntry | scripts/test-accounting/authority.ts:234-239 | an event never removes another tracker's entry |
| ProcessGroups.SilentOnceStopped | scripts/test-accounting/authority.ts:240-257 | once a kill landed or the tracker was released, nothing is signalled on its behalf again, not even at shutdown, whatever happened to its number |
| ProcessGroups.ShutdownReachesEveryGroup | scripts/test-accounting/authority.ts:44-56 | shutdown signals every tracked group that was neither killed nor released and whose number no newer tracker took |
| ProcessGroups.Registry.TrackProcessGroup | scripts/test-accounting/authority.ts:222-233 | a new tracker registers at once if its child already has a number |
| ProcessGroups.Registry.KillGroup | scripts/test-accounting/authority.ts:240-248 | kill signals only while owning and stops for good once the kill landed or the number was lost |
| ProcessGroups.Registry.ReleaseGroup | scripts/test-accounting/authority.ts:249-257 | release signals once more while owning and then stops for good |
| ProcessGroups.Registry.SignalProcessGroups | scripts/test-accounting/authority.ts:44-56 | shutdown signals exactly the numbers the registry still holds |
| CaptureTheorems.SettlesAtMostOnce | scripts/test-accounting/authority.ts:375-386 | over any interleaving of the handlers a capture settles at most once |
| CaptureTheorems.SettledForGood | scripts/test-accounting/authority.ts:371-386 | once settled, nothing that still happens changes the outcome or signals the process group |
| CaptureTheorems.ResolvedMeansComplete | scripts/test-accounting/authority.ts:453-480 | if a capture resolves, no write failed, no stall and no deadline was noted, and the transcript holds every arrived chunk in order of arrival |
| CaptureTheorems.TranscriptIsAPrefix | scripts/test-accounting/authority.ts:319-359 | whatever the run, the transcript holds a prefix of the arrived chunks |
| CaptureTheorems.TimersAlwaysEndIt | scripts/test-accounting/authority.ts:387-408 | from every reachable unsettled state the armed timers alone settle the capture, as a failure, even if no write ends, no kill lands and the child never exits |
| CaptureTheorems.CloseAndDrainResolve | scripts/test-accounting/authority.ts:453-480 | from every unfailed state, the close of the pipes and the drained writes resolve the capture with everything written |
| CaptureTheorems.RunInv | scripts/test-accounting/authority.ts:319-540 | every handler keeps the chain in order, a grace period behind every noted failure, and a settled capture quiet |
| CaptureTheorems.UnnumberedNeverSignalled | scripts/test-accounting/authority.ts:222-262 | a child that never got a process number is never signalled, whatever happens to its capture |
| CaptureTheorems.FailedSpawnRejects | scripts/test-accounting/authority.ts:506-508 | whatever came before, the error of a failed spawn ends an unsettled capture with the child's error and without a signal |
| CaptureHandlers.LeafCapture.FinishWith | scripts/test-accounting/authority.ts:375-386 | the single terminal path clears the timers, releases the group and records one outcome, and does nothing the second time |
| CaptureHandlers.LeafCapture.KillAfterFailure | scripts/test-accounting/authority.ts:396-403 | a failure kills the group, destroys the pipes and starts the grace period once |
| CaptureHandlers.LeafCapture.StartSettling | scripts/test-accounting/authority.ts:453-464 | settling starts once, silences the watchdog and kills the group before the drain |
| CaptureHandlers.LeafCapture.OnData | scripts/test-accounting/authority.ts:319-359 | an arrived chunk joins the end of the append chain |
| CaptureHandlers.LeafCapture.OnWriteEnds | scripts/test-accounting/authority.ts:319-359 | a link of the chain writes its record, or nothing once a write failed; the first failure kills the leaf |
| CaptureHandlers.LeafCapture.OnTick | scripts/test-accounting/authority.ts:489-503 | a tick that finds too long a silence marks the stall and kills the leaf |
| CaptureHandlers.LeafCapture.OnKillTimer | scripts/test-accounting/authority.ts:391-394 | the end of the grace period rejects with the noted failure |
| CaptureHandlers.LeafCapture.OnExitTimer | scripts/test-accounting/authority.ts:515-535 | after the exit the group is killed first; the capture settles once nothing is buffered or pending |
| CaptureHandlers.LeafCapture.OnDrained | scripts/test-accounting/authority.ts:465-480 | after the drain the capture rejects with the noted failure or resolves |
| HeaderSafety.OutputReplacesValues | scripts/test-accounting/node-reporter.ts:527-552 | whenever the result is no marker, the output is the input with disjoint value spans, in order, replaced by the redaction text |
| HeaderSafety.NoKeyIsCopied | scripts/test-accounting/node-reporter.ts:493-552 | no quote opening that is copied outside a redacted pair opens a header key; `HeaderKeyMeans` says which names are keys |
| HeaderSafety.PairsAreHeaders | scripts/test-accounting/node-reporter.ts:393-459 | every redacted pair starts at a recognized key and covers exactly the value parsed behind it |
| HeaderSafety.MalformedHasKey | scripts/test-accounting/node-reporter.ts:393-459 | the malformed marker appears only for a recognized key whose value cannot be parsed |
| HeaderSafety.UnparseableKeyFailsClosed | scripts/test-accounting/node-reporter.ts:493-552 | a recognized key with no parseable value always yields the whole-field marker, unless it lies inside a pair that is redacted anyway |
| HeaderCost.ScanCost | scripts/test-accounting/node-reporter.ts:42-77 | for every input the charges of a scan are at most twice the length plus 34 for each quote and each run of backslashes |
| HeaderCost.ScanCostLinear | scripts/test-accounting/node-reporter.ts:42-77 | for every input the charges of a scan are at most 36 times the length |
| HeaderCost.FewCandidatesSuffice | scripts/test-accounting/node-reporter.ts:556-558 | the production budget suffices for every text with at most three quotes and backslash runs in seventeen characters |
| HeaderCost.PlainBudgetSuffices | scripts/test-accounting/node-reporter.ts:556-558 | without backslashes the charges are at most 4 times the length, so the production budget is never exhausted |
| HeaderCost.EscapedQuotesExhaustBudget | scripts/test-accounting/node-reporter.ts:36-44 | factor 8 is not enough for every harmless input: a text of escaped quotes only holds no header, and exhausts the production budget exactly from the eleventh quote on |
| HeaderIdempotence.RescanReturnsExactlyWhen | scripts/test-accounting/node-reporter.ts:511-518 | for every input: an unlimited scan of the result of an unlimited scan changes nothing exactly when no closed value of the input opens behind a backslash |
| HeaderIdempotence.RedactingTwiceExactlyWhen | scripts/test-accounting/node-reporter.ts:527-568 | for every input of the production scan: a second redaction changes nothing exactly when the first gave up on its budget, or no closing run was dropped and the result affords its own scan |
| HeaderIdempotence.RedactingTwiceIsRedactingOnce | scripts/test-accounting/node-reporter.ts:527-558 | on input without backslashes redacting twice is redacting once, and the output has none either |
| HeaderIdempotence.QuotesNeverGrow | scripts/test-accounting/node-reporter.ts:527-552 | a scan never puts out more quotes than it read |
| HeaderIdempotence.ScanAgain | scripts/test-accounting/node-reporter.ts:527-552 | from any position: where no closing run was dropped the second scan repeats the first one's output; otherwise it gives up or loses a quote |
| HeaderTwice.RedactingTwiceLosesText | scripts/test-accounting/node-reporter.ts:511-518 | a concrete text, within the production budget: the second redaction takes the text the first one kept |
| HeaderKeys.OpensKeyIsKeyText | scripts/test-accounting/node-reporter.ts:393-459 | a key opens exactly where a header name without quote or run stands between equal quotes behind equal runs, within the key bound |
| HeaderKeys.KeyIsLocal | scripts/test-accounting/node-reporter.ts:393-459 | whether a key opens, and where it closes, depends on the text up to its closing quote only |
| HeaderValues.SeparatorAgain | scripts/test-accounting/node-reporter.ts:321-348 | where a separator ends depends on the text up to the first visible character only |
| HeaderValues.ReplacedAgain | scripts/test-accounting/node-reporter.ts:511-518 | a second scan replaces a replaced value at the same place, unless the closing run was dropped: then the value swallows its closing quote |
| HeaderRescan.CopyAgain | scripts/test-accounting/node-reporter.ts:519-525 | what the first scan copies at a quote or a run, a second scan of the output copies too |
| HeaderScanner.ScanBudget.Consume | scripts/test-accounting/node-reporter.ts:121-143 | the budget is charged in full and is exhausted exactly when it is below zero |
| HeaderScanner.CountBackslashRun | scripts/test-accounting/node-reporter.ts:179-194 | the run of backslashes is found, and charged, or the budget is exhausted |
| HeaderScanner.QuoteAfterRun | scripts/test-accounting/node-reporter.ts:202-208 | the quote behind a run is found for one charge |
| HeaderScanner.ResolveStringBodyRun | scripts/test-accounting/node-reporter.ts:215-231 | a run closes the body exactly at the wanted depth before the wanted quote; otherwise the scan goes on behind the escaped character |
| HeaderScanner.ScanStringBody | scripts/test-accounting/node-reporter.ts:244-278 | the loop finds the close the specification names, at its cost, or the budget is exhausted |
| HeaderScanner.SkipStructuredWhitespace | scripts/test-accounting/node-reporter.ts:321-348 | the loop skips exactly the specified separators, at their cost, or the budget is exhausted |
| HeaderScanner.MatchHeaderValue | scripts/test-accounting/node-reporter.ts:393-459 | the value behind a key is matched as specified, at its cost, or the budget is exhausted |
| HeaderScanner.ResolveOuterCandidate | scripts/test-accounting/node-reporter.ts:493-525 | a candidate is resolved as specified, at its cost, or fails on the budget |
| HeaderScanner.ScanAndRedact | scripts/test-accounting/node-reporter.ts:527-568 | for every input and every budget the result is the exhaustion marker or exactly the result with unlimited budget, never part of a scan |
| HeaderScanner.RedactStructuredHeaders | scripts/test-accounting/node-reporter.ts:556-558 | production redaction is the scan with 8 times the length as budget; `HeaderIsRedacted` and `OtherKeysAreCopied` say what it does to the three headers and to other keys |
| EventTheorems.ChunkingDoesNotMatter | scripts/test-accounting/receipt.ts:387-486 | feeding any chunking of a text to the accumulator gives the same counts, skip reasons, consumed identities or failure as the whole text at once |
| EventTheorems.WholeText | scripts/test-accounting/receipt.ts:380-384 | reading a whole text is one write and a finish |
| EventTheorems.RetainedTextIsBounded | scripts/test-accounting/receipt.ts:440-449 | after every successful write the retained text is at most 1 MiB |
| EventTheorems.SummaryAddsUp | scripts/test-accounting/receipt.ts:451-486 | assertions are passed plus failed plus skipped; the skip reasons sum to the skips exactly when no skip reason is a name every object inherits; what each number counts is `SummaryCountsLines` |
| EventTheorems.SkipIsLost | scripts/test-accounting/receipt.ts:451-486 | a concrete reader and text whose summary has one skip and no reason for it |
| EventTheorems.SummarizeChunks | scripts/test-accounting/receipt.ts:387-438 | an accumulator fed chunk by chunk returns the summary of the concatenated text, whose numbers `ChunksCountLines` explains |
| EventAccumulator.StructuredNodeSummaryAccumulator.WriteChunk | scripts/test-accounting/receipt.ts:404-420 | one write turns the state into the specified one, or fails as specified |
| EventAccumulator.StructuredNodeSummaryAccumulator.BoundPendingLine | scripts/test-accounting/receipt.ts:440-449 | an oversized event line fails, and a line that can no longer be an event is discarded |
| EventAccumulator.StructuredNodeSummaryAccumulator.CountLine | scripts/test-accounting/receipt.ts:451-485 | a line is counted as specified, or fails as specified; `SummaryCountsLines` and `FirstFaultDecides` say what that is |
| EventAccumulator.StructuredNodeSummaryAccumulator.CountSkipped | scripts/test-accounting/receipt.ts:365-378 | a skip is counted under its resolved reason, and a consumed mapping identity is recorded |
| EventAccumulator.StructuredNodeSummaryAccumulator.FinishSummary | scripts/test-accounting/receipt.ts:422-438 | finishing reads the last open line and fails without any event |
| EventLines.SplitConcat | scripts/test-accounting/receipt.ts:414-419 | cutting a concatenation at newlines is cutting the parts and joining the line between them |
| ImportGraph.Graph.Visit | scripts/test-fast.ts:177-193 | the depth-first visit adds exactly the modules it newly reaches, with their edges and their uncertainty, and ends |
| ImportGraph.BuildGraph | scripts/test-fast.ts:154-196 | the graph holds exactly the modules forward reachable from the tests, and every import among them reversed |
| ImportGraph.Graph.ImportersOf | scripts/test-fast.ts:199-211 | the worklist ends with exactly the seeds and the modules from which forward imports reach a seed |
| ImportGraph.ClosedHoldsReached | scripts/test-fast.ts:154-196 | a set closed under imports holds everything forward reachable from it |
| ImportGraph.BackwardHoldsReaching | scripts/test-fast.ts:199-211 | a set closed under importers holds every module that reaches it |
| FastSelection.TestsReaching | scripts/test-fast.ts:245-249 | for one changed source: exactly the tests whose forward closure holds what it stands for |
| FastSelection.MapSources | scripts/test-fast.ts:229-258 | falls back exactly when some changed source is in no test's closure; otherwise yields exactly the tests that reach a changed source or an uncertain module |
| FastSelection.SelectFastTests | scripts/test-fast.ts:260-309 | every test runs exactly when a change that counts is untracked, a config file, neither a package.json nor a source under a source root, or a changed source that no chain of imports leads to, and the reason names such a path; otherwise a test is selected exactly when it changed or, given a changed source, a chain of imports leads from it to one, to a module of a changed package or to a module with a computed import |
| UnionFind.Forest.Add | scripts/test-migration/union-find.ts:15-19 | a new id is its own root, and no other root changes |
| UnionFind.Forest.Find | scripts/test-migration/union-find.ts:21-30 | the walk ends at the id's root and compression changes no id's root |
| UnionFind.Forest.Ids | scripts/test-migration/union-find.ts:32-34 | every known id once |
| UnionFind.Forest.Union | scripts/test-migration/union-find.ts:36-42 | chains stay acyclic, and two ids share a root exactly when the recorded unions connect them |
| UnionFind.RootedCompress | scripts/test-migration/union-find.ts:28-29 | pointing an id straight at its root keeps every chain ending at the same root |
| UnionFind.RootedLink | scripts/test-migration/union-find.ts:36-42 | hanging one root under another keeps every chain acyclic and merges exactly the two classes |
| UnionFind.FaithfulUnion | scripts/test-migration/union-find.ts:36-42 | merging two classes makes roots agree with connection by the recorded unions and the new one |
| HelperFamilies.BuildUnionFind | scripts/test-migration/helper-family.ts:194-205 | the forest records exactly the links between every file and its keys |
| HelperFamilies.ConnectedFilesAreFamily | scripts/test-migration/helper-family.ts:194-205 | two files are connected by recorded unions exactly when a chain of shared keys links them |
| HelperFamilies.GroupIntoFamilies | scripts/test-migration/helper-family.ts:236-263 | the families partition the files: every file in exactly one, two files together exactly when a chain of files leads from one to the other in which neighbours name the same local helper cluster or import the same helper module, and each with the keys of its files' helpers |
| StableJsonTheorems.EqualTextsMeanSameValues | scripts/test-accounting/inventory.ts:209-221 | for any two JSON values the canonical texts are equal exactly when the values are the same up to the order of object members |
| StableJsonTheorems.PathListsCompareExactly | scripts/test-accounting/inventory.ts:683-692 | comparing the canonical texts of two lists of paths is comparing the lists, order included |
| StableJsonTheorems.NoTextIsAPrefixOfAnother | scripts/test-accounting/inventory.ts:209-221 | a canonical text determines where its value ends: none is the beginning of another before a delimiter |
| StableJsonTheorems.EscapeReadsBack | scripts/test-accounting/inventory.ts:216-220 | a quoted string can be read back, with what follows it |
| StableJsonTheorems.SameKeys | scripts/test-accounting/inventory.ts:214-218 | objects that are the same write their keys in the same order |
| GlobTheorems.RegExpReadsSegments | scripts/test-accounting/inventory.ts:306-332 | for every glob whose double stars stand alone between slashes and every path, the compiled expression accepts the path exactly when the glob matches segment by segment, an inner `**` covering zero or more segments and a trailing one at least one |
| GlobTheorems.SegmentReads | scripts/test-accounting/inventory.ts:319-326 | the atoms of one segment read exactly the text up to the next slash |
| GlobTheorems.DoubleStarInsideASegmentCrossesSlashes | scripts/test-accounting/inventory.ts:310-318 | two stars inside a longer segment do cross a slash, so the condition cannot be dropped |
| Glob.GlobToRegExp | scripts/test-accounting/inventory.ts:307-328 | the character loop with its look-ahead writes the expression read off the glob from its first character |
| InventoryPlan.EveryExecutableHasOneOwner | scripts/test-accounting/inventory.ts:653-682 | if the whole-manifest check accepts, every executable file has exactly one owner: one suite and no exclusion, or one exclusion and no suite |
| InventoryPlan.CheckInventory | scripts/test-accounting/inventory.ts:653-682 | the check accepts exactly the manifests with valid exclusions, globs that match some file and executables only, known suites, no file wanted by two of them, none without a test and, for the whole manifest, no unaccounted file, each stated by the globs' segments; it says which of these refuses, and its own test for multiple owners can never fire |
| InventoryPlan.TolerantPlanFor | scripts/test-accounting/inventory.ts:586-610 | planning fails exactly on an unknown suite or a path planned twice; otherwise it records every planned path's owner and, for every suite, in ascending order exactly the tracked executable files that one of its globs matches segment by segment and no exclusion names |
| InventoryPlan.PlanFor | scripts/test-accounting/inventory.ts:611-619 | planning that also refuses a suite without a test; the plans are those of `TolerantPlanFor` |
| InventoryPlan.CheckExclusions | scripts/test-accounting/inventory.ts:526-553 | exclusions are accepted exactly when each is valid and tracked and no two name one path |
| InventoryPlan.CheckGlobs | scripts/test-accounting/inventory.ts:554-575 | globs are accepted exactly when every suite matches some file and matches executables only; `AcceptedMeans` states it by segments |
| ReceiptLedger.Ledger.VerifyReceipts | scripts/test-accounting/inventory.ts:793-990 | accepts exactly when every receipt matches its suite's plan, keys are distinct, every required key is present and, if consuming, no run was claimed before; a missing plan and a run claimed before are told apart from the other refusals, and the ledger changes only for a consuming verification of receipts that hold |
| ReceiptLedger.ExactlyOneReceipt | scripts/test-accounting/inventory.ts:837-985 | once verifyReceipts has accepted, each required key has exactly one receipt, whose files are its suite's plan |
| ReceiptLedger.KeyNamesItsParts | scripts/test-accounting/inventory.ts:840 | a valid key names one suite and one profile only |
| ReceiptLedger.Ledger.Create | scripts/test-accounting/inventory.ts:778-791 | exclusive creation succeeds exactly for the first to try |
| ReceiptLedger.Ledger.ConsumeRuns | scripts/test-accounting/inventory.ts:986-988 | consuming tries every run, and passes exactly when all are new and distinct |
| ReceiptLedger.NoRunPassesTwice | scripts/test-accounting/inventory.ts:778-791 | however the attempts of verifications that run at the same time interleave, no run passes in two of them, twice in one, or after it was claimed |
| ReceiptLedger.FirstAttemptSucceeds | scripts/test-accounting/inventory.ts:778-791 | for every run that was not claimed before, the first attempt succeeds |
| ReceiptLedger.NoRunIsVerifiedTwice | scripts/test-accounting/inventory.ts:778-791 | over any history of consuming calls of verifyReceipts, a run of a call that verified, even in vain, is in no later call that passes |
| ReceiptLedger.VerifyInTurn | scripts/test-accounting/inventory.ts:793-990 | a history of consuming calls of verifyReceipts: each passes exactly when its receipts hold and none of its runs was claimed by an earlier one |
| ReceiptLedger.AttemptAll | scripts/test-accounting/inventory.ts:778-791 | attempts in whatever order: each wins exactly when its file is not there yet |
| ReceiptLedger.SortedUnique | scripts/test-accounting/inventory.ts:683-692 | accepted exactly when the normalized paths exist and are strictly ascending |
| MagicString.Editor.Overwrite | scripts/test-migration/magic-string.ts:28-41 | records the edit exactly when its range is valid and overlaps no recorded one; otherwise the editor is unchanged |
| MagicString.Editor.ToString | scripts/test-migration/magic-string.ts:42-53 | one pass over the edits in stable order of their starts yields the specified output |
| MagicStringTheorems.OutputIsRightToLeft | scripts/test-migration/magic-string.ts:42-53 | for every list of edits the editor holds, the output is what applying them one at a time from right to left gives, exactly when no empty edit was recorded after a non-empty one with the same start |
| MagicStringTheorems.OutputLength | scripts/test-migration/magic-string.ts:42-53 | the length is original plus replacements minus replaced ranges under exactly that condition, and larger otherwise |
| MagicStringTheorems.KeepsEveryOtherPosition | scripts/test-migration/magic-string.ts:42-53 | every character outside the edits is copied, moved by the growth of the edits before it |
| MagicStringTheorems.OrderDoesNotMatter | scripts/test-migration/magic-string.ts:28-53 | non-empty edits give the same output in whatever order they are recorded |
| MagicStringTheorems.ReplacedTextComesBack | scripts/test-migration/magic-string.ts:32-53 | a concrete empty edit at the start of an earlier one makes the replaced text appear again |
| CatchText.NarrowingTheTextNarrowsTheTree | scripts/test-migration/catch-clause-narrowing.ts:240-257 | for every eligible body the editor accepts all replacements, and the spliced text is the text of the rewritten syntax tree |
| CatchText.TextOfReplacement | scripts/test-migration/catch-clause-narrowing.ts:208-216 | the replacement string is the text of the guarded conditional |
| CatchMeaning.NarrowingIsIdempotent | scripts/test-migration/catch-clause-narrowing.ts:161-216 | replanning a narrowed body finds no access left and nothing eligible |
| CatchMeaning.OtherClausesAreJudgedAsBefore | scripts/test-migration/catch-clause-narrowing.ts:161-238 | narrowing one clause changes the verdict on no clause with another name |
| CatchTheorems.NarrowingKeepsRunsExactlyWhen | scripts/test-migration/catch-clause-narrowing.ts:13-30 | for every engine and thrown value: all bodies that only read the value's message, and bind none of the three names, run the same after narrowing exactly when in every world the narrowed reading of the value is the reading of its message |
| CatchTheorems.OtherValuesKeptExactlyWhen | scripts/test-migration/catch-clause-narrowing.ts:22-28 | a value that is no Error keeps the runs of all those bodies exactly when in every world `String` makes of it what its message reads as |
| CatchEvaluation.EvalOfReplacement | scripts/test-migration/catch-clause-narrowing.ts:208-216 | in every engine and world the replacement evaluates to the guarded reading: test, then the message or `String` |
| CatchTheorems.NarrowingKeepsRunsWithErrors | scripts/test-migration/catch-clause-narrowing.ts:13-30 | for every engine: if the caught value is an Error, its name is not bound again and messages are only read, the body and the narrowed body run to the same completion in the same world |
| CatchTheorems.NarrowingChangesOtherValues | scripts/test-migration/catch-clause-narrowing.ts:22-28 | a concrete thrown value that is no Error reads differently after narrowing, so some body does not keep its run |
| CatchFile.PlanAcceptedExactlyWhen | scripts/test-migration/catch-clause-narrowing.ts:217-257 | for every file the editor accepts the plan of all its clauses exactly when no site is planned for two of them |
| CatchFile.NestedClausesAreRefused | scripts/test-migration/catch-clause-narrowing.ts:217-257 | two nested clauses with the same name plan the inner access twice, and the editor refuses |
| CatchRewrite.FindMemberAccessesOn | scripts/test-migration/catch-clause-narrowing.ts:105-149 | the walk pushes exactly the unguarded accesses, in order |
| CatchRewrite.ApplyNarrowing | scripts/test-migration/catch-clause-narrowing.ts:240-257 | the text is the editor's output on all sites, or the refusal of the first site the editor does not accept |
| StreamHealthTheorems.DenominatorIsProduction | scripts/stream-health-audit/authority.ts:2471-2550 | for every input the denominator of the score is the production stream count |
| StreamHealthTheorems.CountsAddUp | scripts/stream-health-audit/authority.ts:1978-1990 | the class counts sum to the number of findings |
| StreamHealthTheorems.NumeratorIsGreenCount | scripts/stream-health-audit/authority.ts:2664-2665 | the numerator is the count of the green class and at most the denominator |
| StreamHealthTheorems.PassExactlyWhen | scripts/stream-health-audit/authority.ts:2388-2425 | for any gates: the verdict is pass exactly when they are all resolved, every scored stream is green and no finding is left open; `PassMeans` states it for the gates of a surface, field by field |
| StreamHealthTheorems.NeverBetterThanCoverage | scripts/stream-health-audit/authority.ts:2648-2668 | the final verdict is never better than the coverage verdict computed before the surface findings |
| StreamHealthTheorems.EmptyFleetPasses | scripts/stream-health-audit/authority.ts:2664-2668 | a fleet without streams passes with a score of 0/0 |
| StreamHealthAudit.Aggregation.AddFinding | scripts/stream-health-audit/authority.ts:1982-1990 | a finding is appended and its class counted |
| StreamHealthAudit.Aggregation.EvaluateDeclaredStreams | scripts/stream-health-audit/authority.ts:2471-2550 | adds the findings of a connection's streams and counts its production streams |
| StreamHealthAudit.Aggregation.EvaluateConnection | scripts/stream-health-audit/authority.ts:2552-2612 | a connection id seen before adds one disagreement and nothing else; otherwise id, manifest and stream findings in order |
| StreamHealthAudit.EvaluateStreamHealthAuthority | scripts/stream-health-audit/authority.ts:2614-2688 | the report holds exactly the findings that the rows and the surface give rise to, one for each cause; it passes exactly when every surface field is in order, no judged connection uses an unknown word, all that is scored is green and no finding is of an open class; it fails exactly for a disagreement or a scored finding of a hard class; the score and the class counts count findings, and the coverage verdict is that of the rows alone |
| RunAuthority.Authority.RecordOutcome | scripts/test-accounting/authority.ts:1275-1287 | a run that ends is no longer in flight, joins the unsealed runs unless it threw, and stops the schedule unless it passed |
| RunAuthority.Authority.CarryOn | scripts/test-accounting/authority.ts:1288-1297 | with siblings in flight a lane gives up after a throw, parks if the checkout is suspect, or goes on |
| RunAuthority.Authority.Reject | scripts/test-accounting/authority.ts:1302-1307 | a failed settle stops the schedule, ends the rest and ends the lane with an error |
| RunAuthority.Authority.EndSettle | scripts/test-accounting/authority.ts:1305-1311 | a finished settle ends the rest; a run that threw still ends its lane with its error |
| ProcessGroups.Registry.RegisterChild | scripts/test-accounting/authority.ts:227-233 | registering enters the child's number for the tracker unless the tracker has stopped, as the spawn event does |
| ProcessGroups.Registry.UnregisterTracker | scripts/test-accounting/authority.ts:234-239 | unregistering stops the tracker for good and removes only an entry it owns |
| CaptureHandlers.LeafCapture.KillOwnGroup | scripts/test-accounting/authority.ts:240-248 | the capture's group is signalled only while owned, and never again after a kill that landed or a lost number |
| CaptureHandlers.LeafCapture.ReleaseOwnGroup | scripts/test-accounting/authority.ts:249-257 | the capture's group is let go for good |
| CaptureHandlers.LeafCapture.SettleFailureAfterKill | scripts/test-accounting/authority.ts:387-395 | the grace period is armed at most once |
| CaptureHandlers.LeafCapture.OnDeadline | scripts/test-accounting/authority.ts:404-408 | the deadline is noted and kills the leaf |
| CaptureHandlers.LeafCapture.OnExit | scripts/test-accounting/authority.ts:515-535 | the child's exit silences the watchdog and arms the exit timer |
| CaptureHandlers.LeafCapture.OnClose | scripts/test-accounting/authority.ts:536-538 | closed pipes start the settling |
| CaptureHandlers.LeafCapture.OnSpawned | scripts/test-accounting/authority.ts:227-233 | the spawn registers the child's number unless its tracker has let go |
| CaptureHandlers.LeafCapture.OnError | scripts/test-accounting/authority.ts:506-508 | a child error lets the group go and rejects |
| HeaderScanner.MatchEscapedUnit | scripts/test-accounting/node-reporter.ts:293-319 | one escaped separator is matched as specified, at its cost, or the budget is exhausted |
| HeaderScanner.MatchQuotedValue | scripts/test-accounting/node-reporter.ts:393-459 | a quoted value at any escape depth is matched as specified, at its cost, or the budget is exhausted |
| HeaderScanner.MatchStructuredHeader | scripts/test-accounting/node-reporter.ts:393-459 | key, separator and value are matched as specified, at their cost, or the budget is exhausted |
| ImportGraph.Graph.VisitImports | scripts/test-fast.ts:189-192 | every import of a module gains that module as importer and is visited |
| ImportGraph.Graph.Enqueue | scripts/test-fast.ts:203-208 | the importers of the next module join the closure and, if new, the queue |
| UnionFind.Forest.LinkRoots | scripts/test-migration/union-find.ts:37-41 | two roots are linked only if they differ, and the recorded unions grow by the pair |
| HelperFamilies.AddFile | scripts/test-migration/helper-family.ts:196-203 | a file's node is added and linked to each of its keys |
| HelperFamilies.GroupIds | scripts/test-migration/helper-family.ts:239-249 | every id is put in the group of its root, files and keys apart |
| HelperFamilies.ListFamilies | scripts/test-migration/helper-family.ts:250-262 | each group with a file becomes one family |
| HelperFamilies.FamiliesPartition | scripts/test-migration/helper-family.ts:236-263 | families listed from roots that agree with the links partition the files |
| InventoryPlan.Own | scripts/test-accounting/inventory.ts:599-607 | a plan is owned exactly when none of its paths is owned already or listed twice |
| ReceiptLedger.CheckReceipt | scripts/test-accounting/inventory.ts:844-967 | a receipt passes exactly when it is sound and its normalized files are its suite's plan |
| ReceiptLedger.CheckReceipts | scripts/test-accounting/inventory.ts:837-967 | receipts pass exactly when each does and no two have the same key |
| ReceiptLedger.CheckRequired | scripts/test-accounting/inventory.ts:975-985 | the required keys pass exactly when they are distinct, well formed and each has a receipt |
| StreamHealthAudit.Aggregation.CollectConnections | scripts/stream-health-audit/authority.ts:2614-2632 | connections are kept in order and every malformed row is one disagreement |
| StreamHealthAudit.Aggregation.EvaluateFleet | scripts/stream-health-audit/authority.ts:2641-2647 | the connections' findings in order, their production streams summed, and whether any vocabulary was unknown |
| StreamHealthAudit.Aggregation.AddSurface | scripts/stream-health-audit/authority.ts:2318-2386 | the surface findings in order, each under its condition, none of them scored |
| StreamHealthTheorems.StreamJudged | scripts/stream-health-audit/authority.ts:2029-2102 | a stream's finding is scored exactly when the stream is in production, and a green one always is |
| RunScheduleOutcomes.FailedRunStopsStarts | scripts/test-accounting/authority.ts:1283-1287 | in every schedule that can happen: behind a run that failed or threw no run starts any more, whatever else happens |
| RunScheduleOutcomes.EveryErrorHasItsCause | scripts/test-accounting/authority.ts:1275-1311 | a schedule is stopped exactly if a run did not pass, the checkout was refused at rest or a receipt failed; it has, or is about to pass on, an error exactly if a run threw, for such a refusal, or because the checkout could not be read beside running siblings |
| RunScheduleOutcomes.SealedMeansWritten | scripts/test-accounting/authority.ts:1265-1271 | a run is sealed exactly when its own receipt was written |
| RunScheduleOutcomes.CompletedMeansReturned | scripts/test-accounting/authority.ts:1275-1282 | the completed runs are those that returned, passed or failed |
| RunScheduleOutcomes.UndisturbedSealsReturned | scripts/test-accounting/authority.ts:1258-1318 | if the checkout stays as it was and every receipt can be written, at the end exactly the runs that returned are sealed, and there is an error exactly if some run threw |
| RunScheduleOutcomes.UndisturbedPassingSealsAll | scripts/test-accounting/authority.ts:1258-1318 | if moreover every run passes, every run was started in order and is sealed |
| RunScheduleOutcomes.PhasesInOrder | scripts/test-accounting/authority.ts:881-890 | above concurrency 1 every run without a prepare step comes before every run with one, and manifest order stays among runs of one kind; otherwise it stays altogether |
| RunScheduleOutcomes.PhaseLimits | scripts/test-accounting/authority.ts:881-890 | a phase without prepare steps may use the whole concurrency, any other has a single lane |
| RunScheduleOutcomes.OpeningFillsThePool | scripts/test-accounting/authority.ts:903-923 | as long as no run failed, a phase that opens starts min(limit, runs) runs at once |
| ProcessGroupHistory.TrackersByHistory | scripts/test-accounting/authority.ts:222-262 | in every history a tracker has stopped exactly if it was released, a kill of its landed, or it was killed when no number was its own |
| ProcessGroupHistory.RegistryByHistory | scripts/test-accounting/authority.ts:222-262 | in every history the registry names a tracker for a number exactly when its child got that number and since then neither the tracker gave up nor another tracker's child got it |
| ProcessGroupHistory.SignalsByHistory | scripts/test-accounting/authority.ts:222-262 | in every history a group is signalled exactly when its tracker holds its number and kills it or lets it go, or at shutdown |
| CaptureHistory.HistoryDecides | scripts/test-accounting/authority.ts:319-540 | in every reachable state: a failed write, a stall and an expired deadline are noted exactly if they happened, the chain holds exactly the output that came while the pipes were open, the transcript what was written before the first failed write; the pipes are open exactly until a trouble, the settling or their close, the watchdog and the deadline are armed exactly until what disarms them, and the grace period exactly while a trouble is unsettled |
| CaptureHistory.OutcomeByHistory | scripts/test-accounting/authority.ts:371-480 | a capture ends with the child's error, the grace period after a trouble or the drained chain once settling, and comes to the child's error, else the failed write, else the stall, else the deadline, else it resolves; that a child was merely killed is never the outcome |
| CaptureHistory.SettlingStarts | scripts/test-accounting/authority.ts:453-464 | settling starts with the closed pipes, or after the exit once nothing is buffered or pending |
| CaptureHistory.ExitAndDrainResolve | scripts/test-accounting/authority.ts:515-540 | from every unfailed state with nothing pending the exit, its timer and the drain resolve the capture with everything written |
| CaptureHistory.GroupFollowsEvents | scripts/test-accounting/authority.ts:240-257 | until a capture ends, its group is signalled exactly when it is owned and a trouble, the exit timer, the start of settling or the end turns on it, and is let go with a kill that lands or the end |
| CaptureHistory.TroubleIsSignalled | scripts/test-accounting/authority.ts:396-403 | as long as the number is not given away, a capture that noted a trouble, started settling or ended has signalled its group at least once |
| CaptureHistory.NoSignalWithoutCause | scripts/test-accounting/authority.ts:240-257 | nothing is signalled before a trouble, the exit, the closed pipes or the end |
| CaptureHistory.LandedKillIsLast | scripts/test-accounting/authority.ts:240-248 | a signal whose kill lands, or that ends the capture, is the last one |
| HeaderNames.HeaderKeyMeans | scripts/test-accounting/node-reporter.ts:57 | a key is a header name exactly when it spells `authorization`, `cookie` or `set-cookie` in any mix of cases |
| HeaderNames.SeparatorSkipped | scripts/test-accounting/node-reporter.ts:321-348 | literal and escaped white space within the bound is skipped up to the first visible character |
| HeaderNames.HeaderValueReplaced | scripts/test-accounting/node-reporter.ts:393-552 | in every text without other quotes: a header name in any case and at any escape depth within the key bound, a colon between separators, and a quoted value with any contents: the value is replaced, or a budget that is too small gives its marker |
| HeaderPromises.HeaderIsRedacted | scripts/test-accounting/node-reporter.ts:424-568 | in every text without other quotes: the value of a plainly quoted header is replaced by `[REDACTED]`, by the unlimited scan and in production |
| HeaderPromises.OtherKeysAreCopied | scripts/test-accounting/node-reporter.ts:393-568 | a plainly quoted pair with another key comes back unchanged exactly when its value is no header name either; otherwise the field is malformed, with and without a budget |
| HeaderPairs.SkippedIsSeparator | scripts/test-accounting/node-reporter.ts:293-348 | all that is skipped before a colon or a value is literal or escaped white space |
| HeaderPairs.OnlyHeadersAreReplaced | scripts/test-accounting/node-reporter.ts:393-552 | for every input: whatever is replaced is the contents of a quoted value, up to its closing delimiter or the end, behind one of the three names in quotes and a colon between separators |
| EventCounts.SummaryCountsLines | scripts/test-accounting/receipt.ts:451-486 | for every text with a summary: passed, failed and skipped count the lines that report a test passed without skip, failed without skip, or skipped; each reason that is not inherited counts its skips, and the consumed identities are those of the skips only a named row explains |
| EventCounts.ChunksCountLines | scripts/test-accounting/receipt.ts:387-486 | the same of a text that arrives in chunks |
| EventCounts.SummaryExactlyWhen | scripts/test-accounting/receipt.ts:422-485 | there is a summary exactly when every line is no event or a decodable one of at most 1 MiB whose skip, if any, has a reason, and some line is an event |
| EventCounts.FirstFaultDecides | scripts/test-accounting/receipt.ts:451-485 | the first line that cannot be counted decides the error by what is wrong with it; without one, a text without any event has the error for that |
| EventCounts.ByteLengthIsEncodedLength | scripts/test-accounting/receipt.ts:440-456 | the byte length is the length of the UTF-8 encoding of section 3 of RFC 3629 |
| FastSelection.LoadsChangeIsAffected | scripts/test-fast.ts:213-258 | a test's forward closure holds what a changed source stands for exactly when a chain of imports leads there |
| HelperFamilies.ShareKeyMeans | scripts/test-migration/helper-family.ts:187-192 | two files share a key exactly when they name the same local helper cluster or import the same helper module |
| StableJsonGrammar.StableReads | scripts/test-accounting/inventory.ts:209-221 | for every value the canonical text is one of its JSON texts by sections 2 to 7 of RFC 8259, without white space and with ascending keys |
| InventoryPlan.PlannedHoldsWanted | scripts/test-accounting/inventory.ts:586-610 | for a suite whose double stars stand alone: its plan holds, in ascending order, exactly the tracked executable files that a glob of it matches segment by segment and no exclusion names; none if it declares zero tests |
| InventoryPlan.SelectedMeans | scripts/test-accounting/inventory.ts:512-522 | the selection fails exactly on an unknown id and otherwise holds exactly the chosen suites |
| InventoryPlan.ConflictMeans | scripts/test-accounting/inventory.ts:599-607 | where no file is listed twice, suites conflict exactly when two chosen ones want the same file |
| InventoryPlan.AcceptedMeans | scripts/test-accounting/inventory.ts:653-682 | what the inventory check accepts, by the globs' segments, the exclusions and the files alone |
| InventoryPlan.BeforeMeans | scripts/test-accounting/inventory.ts:30-38 | the order of paths is the lexicographic one of their characters |
| InventoryPlan.CheckOwners | scripts/test-accounting/inventory.ts:662-671 | no executable file has more than one owner, and whether some file has none is found |
| ReceiptLedger.AcceptedReceipts | scripts/test-accounting/inventory.ts:844-967 | after an accepting verification every receipt is sound, and its normalized files are exactly, and in order, those its suite wants by its globs |
| ReceiptPaths.NormalizeMeans | scripts/test-accounting/inventory.ts:173-182 | a path is refused exactly when it is empty or, with forward slashes and without a leading `./`, starts with a slash or has a segment `..`; otherwise that is the result |
| ReceiptPaths.NormalizingAgain | scripts/test-accounting/inventory.ts:173-182 | normalizing a normalized path changes nothing exactly when it is not empty and has no second leading `./` |
| ReceiptPaths.ValidKeyMeans | scripts/test-accounting/inventory.ts:975-985 | a required key is valid exactly when it is a non-empty suite and a non-empty profile without slashes, joined by one |
| ReceiptPaths.SuitesPlanned | scripts/test-accounting/inventory.ts:818-830 | the suites planned are those of the receipts and those named before the first slash of a required key |
| CatchPlan.AccessesAreFound | scripts/test-migration/catch-clause-narrowing.ts:90-149 | an access is planned exactly when a path in the tree leads to a read of a property of the caught value and no `if` or conditional on the way is taken because that value is an `Error` |
| CatchPlan.PlanByReads | scripts/test-migration/catch-clause-narrowing.ts:161-216 | a clause has nothing to narrow, is refused or is eligible exactly by its unshielded reads: none, one of another property, or `message` only; then the sites are those reads |
| CatchPlan.OffsetHolds | scripts/test-migration/catch-clause-narrowing.ts:72-88 | the range of a planned access holds the text of what is read |
| CatchPlan.FilePlanHoldsEveryClause | scripts/test-migration/catch-clause-narrowing.ts:223-238 | a file's plan holds exactly the unshielded reads of every clause, wherever it stands, that may be narrowed |
| StreamHealthFindings.StreamFindingMeans | scripts/stream-health-audit/authority.ts:2029-2102 | a stream's class belongs to the weightiest evidence that holds, and it is scored exactly when it is a supported stream of an active connection and no fixture |
| StreamHealthFindings.CoverageFindingsMean | scripts/stream-health-audit/authority.ts:2471-2632 | before the surfaces, the findings are exactly those the rows give rise to: malformed and repeated rows, connections without identity or usable manifest, fixtures and streams |
| StreamHealthFindings.FindingsAreWarranted | scripts/stream-health-audit/authority.ts:2614-2659 | all findings are exactly those that the rows or a surface field give rise to |
| StreamHealthFindings.FindingsTotal | scripts/stream-health-audit/authority.ts:2614-2659 | and there are as many as there are causes, so none is made twice |
| StreamHealthFindings.PassMeans | scripts/stream-health-audit/authority.ts:2388-2425 | the audit passes exactly when authentication, page, pagination and revision are in order, no judged connection uses an unknown word, all that is scored is green and no finding is of an open class |
| StreamHealthFindings.FailExactlyWhen | scripts/stream-health-audit/authority.ts:2392-2408 | the verdict is a failure exactly when some finding is a disagreement, or scored and of a hard class |
| StreamHealthFindings.CoverageMeansVerdict | scripts/stream-health-audit/authority.ts:2648-2659 | the coverage verdict, by what the rows alone give rise to |
| StreamHealthFindings.NumbersCount | scripts/stream-health-audit/authority.ts:2664-2665 | numerator, denominator and class counts are the numbers of the findings they are about |

## Left out

- Git, npm, the file system, spawning, HTTP and the browser: what they answer is a parameter or an event.
- SHA-256: digests are compared as values; nothing is claimed about collisions.
- Which lane takes which run, and the order in which the receipts of one batch are written: not observed by any theorem.
- The captured tails of the output, progress lines and wall-clock times of a capture.
- `prepareSuite`, a second and smaller settling machine of the same shape as `capture`.
- The redactions by regular expression after the structured scan, and the cut of oversized input before it.
- Parsing of event lines, trimming and the title and name patterns of skips: parameters of the event reader. The
  comparison of consumed with configured mapping rows is a plain set equality.
- Parsing and resolving imports: the resolved dependencies of a module are a parameter. The reasons given for a
  selected test, and the order of the selected suites.
- UTF-16 surrogates: texts are sequences of Unicode scalar values, with exact UTF-8 lengths where bytes count. Keys and
  paths are ordered by scalar value, which differs from code-unit order only beyond the basic plane.
- The names, kinds and order of families; the naming of a family after its first key.
- `MatchesGlob`: takes path and glob as normalization leaves them, so a glob that is not repository-relative, which the
  source rejects, does not occur.
- `VerifyReceipts`: the checks of a receipt that concern it alone (schema, authority records, times, bindings, digests,
  transcript, result, counts, skip baseline) are one truth value.
- `CheckReceipt`: as for `VerifyReceipts`, one truth value stands for the checks that concern one receipt alone.
- `CheckReceipts`: as for `VerifyReceipts`, one truth value stands for the checks that concern one receipt alone.
- `CheckExclusions`: the required fields, the date, the expiry and the suite and profile of an exclusion are one truth
  value.
- `ConsumeRuns`: an exclusive creation that fails for another reason than an existing file is not modelled.
- `CheckInventory`: `failOnEmpty` adds nothing, since planning already refuses an empty suite, and is not a parameter.
- `NarrowingKeepsRunsWithErrors`: nested functions, generators and `break`, `continue` and `return` are not in the syntax;
  other nodes evaluate their children in order. The rewritten text is taken to parse to the rewritten tree.
- `PlanAcceptedExactlyWhen`: says when the plan of a whole file is accepted; the text it then gives is characterised for
  one clause at a time.
- `RedactingTwiceExactlyWhen`: whether the result affords its own scan is left as its cost, which a value shorter than
  before can push over the budget.
- `OrderDoesNotMatter`: for non-empty edits; two empty edits at one place keep the order in which they were recorded.
- `EvaluateStreamHealthAuthority`: the evidence predicates, closed vocabularies, HTML parsing and the comparison of the
  rendered page are truth values; the rounded percentage is left out.
