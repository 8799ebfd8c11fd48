# Trading operations lab: a verified model

This project models five parts of `tradingchassis_ops_lab` in Dafny and proves what they promise.

* **Report splicing** (`ReportSplice`, `ReportSpliceExact`, `ReportWords`, `ReportWordCases`, `ReportMarks`,
  `ReportInterleaving`, `ReportReading`): two independent writers that each keep a marker-delimited section in the
  same `report.md`. Every interleaving of their patches is given in closed form, together with the exact reports on
  which it holds. For the "only if" a report is read as the word of its markers; the patches act on words, and
  the few cases the words leave open are decided on the text. A line reader then finds, between each writer's
  markers, the values of its last payload.
* **Reconciliation** (`Decimals`, `OpenOrders`, `Reconciliation`): decimals rendered to a canonical text,
  an order book built from a list and diffed with another, freshness by age, and the roll-up of severities.
* **Kill switch** (`KillSwitch`): the write-ahead protocol of event log, mirrored journal line and state
  file, with a crash or a torn write possible between any two writes.
* **Paper lifecycle** (`PaperLifecycle`, `PaperRun`): `run paper` as a step machine beside kill commands,
  other `run paper` processes and crashes, and the imperative code proved to be a run of that machine.
* **Prometheus metrics** (`PrometheusText`, `MetricNames`, `MetricSeries`, `RunMetrics`, `RunEmitter`,
  `RunReport`, `RunSeries`, `RunDocument`, `RunClash`, `EvidenceMetrics`, `EvidenceDocument`, `MetricsDocument`,
  `DocumentSeries`): what each artifact makes a run report, the printer of the text exposition format 0.0.4, a parser written from the format's sections "Line format"
  and "Comments, help text, and type information", and the round trip between the two for whole documents;
  counters, unique series and grouping ("Grouping and sorting").

The code is mirrored by specification functions, and what a result means is said a second time without them:
`KillSwitch.Meant`, `PaperLifecycle.Looked`, `ReportReading.Shows`, `Reconciliation.FreshnessMeant`,
`OpenOrders.Reported`, `RunReport.Says`, `EvidenceDocument.Reports` and `MetricsDocument.Stands` speak of the fields
of the inputs, with names, codes and texts written out.

`Text` and `Sorting` hold the Python primitives the code is made of. Code that fills dictionaries, lists
or files in place is modelled by methods and classes proved against specification functions; the laws are
lemmas about those functions. `dafny verify dfyconfig.toml` checks
everything.

## Conventions

* `Decimal()`, `datetime.fromisoformat` and the float text of a timestamp are given functions (`Reader`,
  `Clock`, `Stamper`) over which every theorem quantifies. Timestamps are integer microseconds.
* JSON payloads are datatypes. An `Option` field stands for an `isinstance` test: `None` is a missing field
  or one of another type. `Whole` keeps Python's `bool` apart from `int`, since `isinstance(True, int)`
  holds.
* A kill command is one atomic action for the paper lifecycle; inside it a crash may fall between any two
  writes, and the state file may be left torn.
* Event ids and timestamps of a command are parameters; theorems ask only that they are not empty.

## Where code and documents differ

The model follows the code.

* `docs/failure-modes.md:102-103` names the journal events `kill_switch_activated` and
  `kill_switch_cleared`; the code writes `kill_activated` and `kill_cleared`
  (`src/tradingchassis_ops_lab/safety/kill_switch.py:13-14`).
* `docs/runbooks/safety-gate.md:60-64` says to clear the switch and run the same spec again; the code refuses
  a run directory that exists (`PaperLifecycle.RerunRefused`).
* A count that is `true` in JSON passes the integer test and is written as the value `True`, which the
  format does not know (`RunDocument.TrueHeartbeats`). A path or run name with a line feed leaves its comment
  line, and may then even read as an ill-formed `# TYPE` line (`MetricsDocument.BrokenName`,
  `MetricsDocument.DeclaringName`). The exact condition for a document that reads back is `MetricsDocument.Clean`.
* The format wants all lines of a metric in one group. The drill reports of a run, the statuses of the evidence
  part and the runs of a document are each written record by record, so two of them break this rule
  (`RunDocument.RepeatedDrill`, `EvidenceDocument.TwoStatuses`, `DocumentSeries.TwoJournals`);
  `DocumentSeries.DocumentGrouped` says exactly when a document keeps it.
* The run id on the samples comes from `metadata.json`, not from the directory. A run directory copied under
  another name repeats a series, and if the journal is shown it does so also when the copy's status was edited
  (`DocumentSeries.CopiedRun`, `DocumentSeries.TwoNames`); `DocumentSeries.DocumentUniqueExact` says exactly when
  all series are distinct.
* `docs/failure-modes.md:92` has a malformed evidence file skipped and the rest rendered. If nothing else is found,
  the file alone makes the two evidence totals appear, as 0 (`EvidenceDocument.MalformedAlone`).
* A writer's second patch expects that the report held none of its markers at first. A lone marker makes it
  drop or repeat text; a pair, such as an earlier section of its own, is refreshed in place, so that the
  section does not come to stand at the end. `ReportInterleaving.InterleavingExact` says exactly when the patches
  of both writers leave what is expected.

## Model

| member | source | states |
|---|---|---|
| ReportSplice.Report.PatchReadiness | src/tradingchassis_ops_lab/connectivity/readiness.py:190-230 | the file afterwards is the splice of the readiness section into the text read (line ends normalised); a missing file is skipped, a non-file is an error, and neither is touched |
| ReportSplice.Report.PatchProbe | src/tradingchassis_ops_lab/connectivity/probe.py:231-267 | the same for the probe section and its own markers |
| ReportSplice.BreaksRead | src/tradingchassis_ops_lab/connectivity/readiness.py:200 | reading keeps text up to a line break and turns each kind of break into one line feed |
| ReportSplice.FirstAfterLines | src/tradingchassis_ops_lab/connectivity/readiness.py:217-219 | a marker put after complete lines that do not hold it is what `index` finds first: no marker straddles a seam |
| ReportSplice.SectionMarkers | src/tradingchassis_ops_lab/connectivity/readiness.py:206-215 | a section of a marker-free payload holds a marker if and only if it is one of its own two |
| ReportSplice.SpliceReplaces | src/tradingchassis_ops_lab/connectivity/readiness.py:217-220 | a splice cuts out exactly the section that stood between text without its markers, and keeps both sides up to whitespace |
| ReportSplice.ExpectedStep | src/tradingchassis_ops_lab/connectivity/probe.py:256-261 | one more tolerated patch on an expected report gives the expected report of the longer history, in all positions and for both writers |
| ReportSplice.EveryInterleaving | src/tradingchassis_ops_lab/connectivity/readiness.py:206-222 | for every finite interleaving of both writers on a report that holds no more of their markers than they tolerate (any if the writer never patches, one of its two if it patches once, otherwise none): the right-stripped original, then at most one section a writer, in the order of first insertion, each with its latest payload, with the exact whitespace between |
| ReportSplice.LastWriterWins | src/tradingchassis_ops_lab/connectivity/probe.py:243-261 | on every report reached from a marker-free one, patching with p then q equals patching with q alone; with p = q, idempotence |
| ReportSpliceExact.StrayStart | src/tradingchassis_ops_lab/connectivity/readiness.py:217-222 | with a lone start marker in the original, the second patch drops everything from it on |
| ReportSpliceExact.StrayEnd | src/tradingchassis_ops_lab/connectivity/readiness.py:217-222 | with a lone end marker, the second patch repeats what follows it, the first patch's section included |
| ReportSpliceExact.StrayPairStartFirst | src/tradingchassis_ops_lab/connectivity/readiness.py:217-222 | with both markers, start first, the first patch replaces what stood between them by the section and the second refreshes it in place; nothing is appended at the end |
| ReportSpliceExact.StrayPairEndFirst | src/tradingchassis_ops_lab/connectivity/readiness.py:217-222 | with both markers, end first, the result is not the trimmed original and one section either |
| ReportSpliceExact.SecondPatchExact | src/tradingchassis_ops_lab/connectivity/probe.py:256-261 | for any report: two patches of one writer leave the trimmed original and one section if and only if the original held neither of its markers |
| ReportMarks.PatchMarks | src/tradingchassis_ops_lab/connectivity/probe.py:243-261 | patching a text patches the word of its markers: text and words commute, whatever whitespace is stripped |
| ReportWordCases.WordCases | src/tradingchassis_ops_lab/connectivity/probe.py:243-261 | if the word goes on after the patches with just the writers' sections although one had more of its markers than it tolerates, a single splice with the end marker in front doubled what stood between, in one of three situations |
| ReportInterleaving.NoOverlap | src/tradingchassis_ops_lab/connectivity/probe.py:256-261 | text doubled behind a section and one line break is never the text continued by sections behind two |
| ReportInterleaving.OneDoubling | src/tradingchassis_ops_lab/connectivity/probe.py:256-261 | one splice with the end marker in front never leaves the trimmed text and the section |
| ReportInterleaving.InterleavingExact | src/tradingchassis_ops_lab/connectivity/readiness.py:206-222 | for any report and any interleaving of both writers: the result is the expected report if and only if the original held, for each writer, no more of its markers than it tolerates |
| ReportInterleaving.OneWriterExact | src/tradingchassis_ops_lab/connectivity/probe.py:256-261 | the same for any number of patches of one writer: only its own markers count |
| ReportReading.BodyInOrder | src/tradingchassis_ops_lab/connectivity/readiness.py:206-215 | for a payload with one-line values, the lines between the markers of a section, word for word and in order |
| ReportReading.SectionShows | src/tradingchassis_ops_lab/connectivity/probe.py:243-254 | a line reader finds in a section each value of its payload once, under its own name, and the title; the first and last lines are the literal markers |
| ReportReading.InterleavingShows | src/tradingchassis_ops_lab/connectivity/probe.py:256-261 | after any tolerated interleaving the report shows, between the markers of each writer, the values of that writer's last payload |
| ReportSpliceExact.LoneMarker | src/tradingchassis_ops_lab/connectivity/readiness.py:217-222 | the smallest failing input: a report that is just the start marker |
| Decimals.NumEqNormal | src/tradingchassis_ops_lab/reconciliation/checks.py:58-64 | two decimals are numerically equal if and only if they have the same normal form (no trailing zeros, one zero) |
| Decimals.RenderNormal | src/tradingchassis_ops_lab/reconciliation/checks.py:58-64 | fixed-point formatting and stripping zeros and the point give the text of the normal form |
| Decimals.ParseOfRender | src/tradingchassis_ops_lab/reconciliation/checks.py:58-71 | reading a rendering back gives a number equal to the one rendered |
| Decimals.CanonicalForm | src/tradingchassis_ops_lab/reconciliation/checks.py:58-64 | for all finite decimals of any sign, zeros and exponent: equal texts if and only if equal numbers, -0 and 0 included |
| Decimals.RenderShape | src/tradingchassis_ops_lab/reconciliation/checks.py:58-64 | how a rendering is spelled: plain digits without spare zeros, no point without a fraction, no negative zero; with the value this leaves one text |
| Decimals.RenderFixpoint | src/tradingchassis_ops_lab/reconciliation/checks.py:58-71 | rendering what was read from a rendering gives the same text |
| OpenOrders.CanonicalizeOpenOrders | src/tradingchassis_ops_lab/reconciliation/checks.py:254-282 | a book is built if and only if the stripped ids are distinct and all numbers readable; it then maps exactly the listed ids to their canonical orders; otherwise the error names the first order refused and why |
| OpenOrders.DiffBooks | src/tradingchassis_ops_lab/reconciliation/checks.py:290-330 | the deltas in order: orders missing, orders extra, then for each shared id each differing field, required fields before wildcard ones |
| OpenOrders.CompareOpenOrders | src/tradingchassis_ops_lab/reconciliation/checks.py:285-337 | the check's severity is the declarative verdict on the two lists and its details are those of the first bad list or of the diff |
| OpenOrders.CanonicalAgree | src/tradingchassis_ops_lab/reconciliation/checks.py:268-325 | comparing canonical fields finds no difference if and only if symbol, side, type and numeric quantity and price agree (null price only with null), and the two wildcard fields agree where both are given |
| OpenOrders.DeltaMember | src/tradingchassis_ops_lab/reconciliation/checks.py:300-323 | the deltas are exactly the missing ids, the extra ids and, for each shared order, each field that differs with both its values |
| OpenOrders.DiffSoundComplete | src/tradingchassis_ops_lab/reconciliation/checks.py:290-330 | the diff is empty if and only if the lists name the same ids and agree on every shared one |
| OpenOrders.DetailsExactly | src/tradingchassis_ops_lab/reconciliation/checks.py:254-337 | a mismatch reports, said from the two lists: the sorted ids only one list knows, and each field in which two orders of one id differ, with both canonical values; in ascending order and none twice |
| OpenOrders.PermutationInvariant | src/tradingchassis_ops_lab/reconciliation/checks.py:254-337 | permuting either list never changes the severity; two decided checks of the lists are equal, and of undecided ones the same list is refused |
| OpenOrders.SwapInvariant | src/tradingchassis_ops_lab/reconciliation/checks.py:285-337 | swapping expected and observed never changes the severity |
| OpenOrders.RespellingInvariant | src/tradingchassis_ops_lab/reconciliation/checks.py:254-337 | any check of lists in which decimals are written differently with equal values equals the check of the original lists |
| OpenOrders.VerdictUnique | src/tradingchassis_ops_lab/reconciliation/checks.py:254-337 | the lists determine the check in full, malformed ones too |
| Reconciliation.ComparePosition | src/tradingchassis_ops_lab/reconciliation/checks.py:203-251 | severity is the declarative verdict (unknown, mismatch or ok); an undecided check names the first complaint; the deltas name exactly the keys that differ, with both values, in key order |
| Reconciliation.NormalizedSaid | src/tradingchassis_ops_lab/reconciliation/checks.py:203-228 | what a position is refused for, first complaint first, and which text an accepted one shows under each key |
| Reconciliation.AgeExpires | src/tradingchassis_ops_lab/reconciliation/checks.py:386-404 | a truncated age exceeds the threshold if and only if the clock is at least threshold + 1 seconds past the timestamp; future timestamps have age 0 |
| Reconciliation.CompareFreshness | src/tradingchassis_ops_lab/reconciliation/checks.py:340-418 | the observed payload's positive threshold counts whatever the expected one says, else the expected one's, else the check is undecided; with it and both timestamps, a field is stale if and only if it lies threshold + 1 seconds back; ages are whole seconds; each undecided case names its reason |
| Reconciliation.LaterClock | src/tradingchassis_ops_lab/reconciliation/checks.py:355-418 | a later clock can only turn ok into warning |
| Reconciliation.LargerThreshold | src/tradingchassis_ops_lab/reconciliation/checks.py:340-418 | with the same timestamps a larger resolved threshold, whichever payload it comes from, can only turn warning into ok |
| Reconciliation.SummarizeChecks | src/tradingchassis_ops_lab/reconciliation/checks.py:421-425 | the summary counts each severity, all four present |
| Reconciliation.WorstIsJoin | src/tradingchassis_ops_lab/reconciliation/checks.py:428-434 | the roll-up is the join in the order ok, warning, unknown, mismatch |
| Reconciliation.RollupMeaning | src/tradingchassis_ops_lab/reconciliation/checks.py:428-434 | mismatch if any check mismatches, else unknown if any is unknown or there is none, else warning if any warns, else ok |
| Reconciliation.RollupPermuted | src/tradingchassis_ops_lab/reconciliation/checks.py:428-434 | the order of the checks does not matter |
| Reconciliation.RollupConcat | src/tradingchassis_ops_lab/reconciliation/checks.py:428-434 | rolling up two parts and joining is rolling up the whole |
| Reconciliation.RollupCoherent | src/tradingchassis_ops_lab/cli.py:752-753 | the counts add up to the number of checks, and pass, status ok or warning, and exit code 0 coincide |
| Reconciliation.RunReconciliationCheck | src/tradingchassis_ops_lab/reconciliation/checks.py:467-490 | checks, roll-up, summary counts and pass of one run; pass if and only if position and orders are ok and freshness ok or warning |
| KillSwitch.StateRoundTrip | src/tradingchassis_ops_lab/safety/kill_switch.py:119-231 | a state that was written reads back as itself |
| Text.StripMeaning | src/tradingchassis_ops_lab/safety/kill_switch.py:90 | stripping a reason, an actor or a name drops whitespace at both ends and nothing else |
| KillSwitch.StatusSaid | src/tradingchassis_ops_lab/safety/kill_switch.py:153-231 | reading gives absent without a file, active or cleared if and only if a well-formed payload has that text as its state, and fails on every other file |
| KillSwitch.CommandMeant | src/tradingchassis_ops_lab/safety/kill_switch.py:324-419 | every end of a command, said from its arguments and the files before it: the log one event longer, with its id, time, reason, actor and direction, the journal one line longer if it was there, each entry of the state file; on a crash exactly the writes that came before it |
| KillSwitch.Switch.AppendOptionalJournalEvent | src/tradingchassis_ops_lab/safety/kill_switch.py:140-150 | mirrors the event if a journal exists, reports an unusable one |
| KillSwitch.Switch.Activate | src/tradingchassis_ops_lab/safety/kill_switch.py:324-368 | whichever write it dies at, leaves what `CommandMeant` says; when done, the last event activates and the file says active, since this command's time, not cleared |
| KillSwitch.Switch.Clear | src/tradingchassis_ops_lab/safety/kill_switch.py:371-419 | the same for clearing: the last event clears, the file says cleared at this command's time and keeps the old active_since |
| KillSwitch.EveryRun | src/tradingchassis_ops_lab/safety/kill_switch.py:335-419 | in every run with crashes and torn writes anywhere: a readable state file is the replay of the committed events, each logged event continues the last committed one, and the mirrored events are an in-order part of the log |
| KillSwitch.LogGrows | src/tradingchassis_ops_lab/safety/kill_switch.py:128-137 | the event log only grows |
| KillSwitch.ReplayMeaning | src/tradingchassis_ops_lab/safety/kill_switch.py:352-416 | what a replay says: last event's id, time, reason and actor, active since the last activation, cleared_at set if and only if cleared |
| KillSwitch.ReturnedIsRead | src/tradingchassis_ops_lab/safety/kill_switch.py:257-271 | what a completed command returned is what the next reader sees |
| KillSwitch.CrashFreeRefinement | src/tradingchassis_ops_lab/safety/kill_switch.py:324-419 | without crashes the state file is a replay of the whole log and each event's previous state is its predecessor's new state |
| KillSwitch.LogIsCommands | src/tradingchassis_ops_lab/safety/kill_switch.py:324-419 | without crashes the log is the list of the commands that gave a reason: the i-th event has the direction, id, time, reason and actor of the i-th of them |
| KillSwitch.UnreadableForever | src/tradingchassis_ops_lab/safety/kill_switch.py:153-231 | from an unreadable state file no sequence of commands appends an event, mirrors one or writes a state |
| PaperLifecycle.EveryRun | src/tradingchassis_ops_lab/runs/paper.py:121-363 | for every interleaving of launches, kill commands, heartbeat failures and crashes, the files are those of one process's point of progress, except that the metadata is broken off where the process died writing it |
| PaperLifecycle.TraceGrammar | src/tradingchassis_ops_lab/runs/paper.py:176-363 | the lifecycle events in the journal are a prefix of a complete trace of the grammar |
| PaperLifecycle.ArtifactsAgree | src/tradingchassis_ops_lab/runs/paper.py:203-363 | at every step, also after a crash in the middle of writing the metadata: run_completed implies status completed or safety_blocked, run_failed implies failed, the report and the safety entry fit the status, the heartbeat count is the number logged, and heartbeats follow a look that did not find the switch active |
| PaperLifecycle.EndArtifacts | src/tradingchassis_ops_lab/runs/paper.py:203-363 | an ended run's journal, status, heartbeat count and report, written out for each of the three ends |
| PaperLifecycle.LookedAtSwitch | src/tradingchassis_ops_lab/runs/paper.py:133-141 | the state a process acts on was in the state file when one of the launches read it |
| PaperLifecycle.ActivationBlocks | src/tradingchassis_ops_lab/runs/paper.py:203-262 | after a completed activation and no further command, whatever the switch's past: no run gets beyond run_started, safety checked active, safety_blocked, run_completed, and an ended one has logged exactly these |
| PaperLifecycle.ClearanceContinues | src/tradingchassis_ops_lab/runs/paper.py:203-363 | after a completed clearance and no further command no run is blocked, and one that ends without failing has logged all three heartbeats |
| PaperLifecycle.SwitchKept | src/tradingchassis_ops_lab/safety/kill_switch.py:140-150 | everything the kill switch keeps it also keeps while lifecycles write the same journal |
| PaperLifecycle.RerunRefused | src/tradingchassis_ops_lab/runs/artifacts.py:28-29 | with the run directory there and no process at work, no launch changes any lifecycle artifact |
| PaperLifecycle.UnreadableStopsAll | src/tradingchassis_ops_lab/runs/paper.py:133-148 | with an unreadable state file no launch and no command writes anything |
| PaperLifecycle.KillsDoNotSteer | src/tradingchassis_ops_lab/runs/paper.py:133-141 | after the last launch kill commands change nothing in the course of the lifecycle, neither steps nor events, status, metrics or report: the gate is one look |
| PaperLifecycle.SnapshotSays | src/tradingchassis_ops_lab/cli.py:595-716 | a completed kill command leaves its own state in the safety entry of usable metadata, and the status as it was |
| PaperRun.Workspace.UpdateSafetySnapshot | src/tradingchassis_ops_lab/safety/kill_switch.py:291-321 | the safety entry becomes what the state file says and the status is kept; nothing is done without metadata; unusable metadata or an unreadable switch is an error that changes nothing |
| PaperRun.Workspace.RunKillCommand | src/tradingchassis_ops_lab/cli.py:595-716 | a kill command with its snapshot refresh acts on the files as one action of the machine |
| PaperRun.Workspace.AppendHeartbeats | src/tradingchassis_ops_lab/runs/paper.py:54-76 | the loop logs three heartbeats or stops at the failing one, as a run of the machine |
| PaperRun.Workspace.RunPaperLifecycle | src/tradingchassis_ops_lab/runs/paper.py:121-363 | the imperative lifecycle, interrupted anywhere by kill commands, is a run of the machine; by the state file before it: refused if and only if it cannot be read, blocked if and only if it says active and no directory is there, otherwise continued on absent or cleared; each end leaves exactly its journal, status, metrics and report |
| PrometheusText.ThreePassesAreOneMap | src/tradingchassis_ops_lab/observability/metrics.py:201-206 | the three whole-string replacements equal one left-to-right character map |
| PrometheusText.EscapedIsWellEscaped | src/tradingchassis_ops_lab/observability/metrics.py:201-206 | no raw line feed, every quote behind an odd run of backslashes, no escape left open |
| PrometheusText.UnquoteEscaped | src/tradingchassis_ops_lab/observability/metrics.py:201-210 | the format's unescape up to the closing quote inverts the escape, whatever follows |
| PrometheusText.EscapeInjective | src/tradingchassis_ops_lab/observability/metrics.py:201-206 | distinct label values stay distinct |
| PrometheusText.ParseMetricLine | src/tradingchassis_ops_lab/observability/metrics.py:209-245 | a printed line parses to its name, ordered labels and value text if the value is a number, and to nothing otherwise |
| PrometheusText.MetricOneLine | src/tradingchassis_ops_lab/observability/metrics.py:238-245 | no sample spills over its line, whatever its label values hold |
| PrometheusText.CommentHidden | src/tradingchassis_ops_lab/observability/metrics.py:694-695 | a comment line is read as nothing if and only if its text does not begin like a HELP or TYPE line and each line after a line feed in it is empty or a comment that does not either |
| PrometheusText.DocumentRoundTrip | src/tradingchassis_ops_lab/observability/metrics.py:697 | a scraper reads a document as exactly the emitted samples and no declaration if and only if all values are numbers and all comment texts are contained |
| PrometheusText.JoinedIsDocument | src/tradingchassis_ops_lab/observability/metrics.py:697 | joining by line feeds and adding one is terminating every line |
| MetricNames.NamesApart | src/tradingchassis_ops_lab/observability/metrics.py:335-856 | distinct metric families have distinct names |
| MetricNames.FamilyNamed | src/tradingchassis_ops_lab/observability/metrics.py:335-856 | every family name is a metric name of the format |
| MetricNames.NamesSaid | src/tradingchassis_ops_lab/observability/metrics.py:310-856 | the names of all metric families and labels, written out |
| MetricSeries.LineBuffer.AppendMetric | src/tradingchassis_ops_lab/observability/metrics.py:238-245 | appends exactly the line of this metric to the list |
| MetricSeries.ValueIsNumber | src/tradingchassis_ops_lab/observability/metrics.py:226-231 | a value is written as a number of the format if and only if it is no boolean |
| MetricSeries.ApartSeries | src/tradingchassis_ops_lab/observability/metrics.py:209-245 | two metrics have the same name and label set if and only if they are of one family and carry the same label list |
| RunEmitter.CountEvents | src/tradingchassis_ops_lab/observability/metrics.py:597-601 | counts the usable event names with their multiplicity |
| RunEmitter.RenderPrometheusText | src/tradingchassis_ops_lab/observability/metrics.py:305-697 | the text of a run is the document of its specified lines, or the run is refused with the first fault in checking order |
| RunReport.ReportedExactly | src/tradingchassis_ops_lab/observability/metrics.py:305-692 | a run without a fault writes a line if and only if its artifacts call for it: family, labels and value said from their fields, with the codes of all encodings, both booleans, the three times and their difference, every count, the tally of each severity and the pass of each drill written out |
| RunReport.RefusedExactly | src/tradingchassis_ops_lab/observability/metrics.py:337-648 | a run is refused if and only if one of seventeen checks fails, and names the first that does |
| RunDocument.RunRoundTrip | src/tradingchassis_ops_lab/observability/metrics.py:305-697 | a scraper reads exactly the emitted samples of a run if and only if no emitted count is a boolean and every skip comment is contained |
| RunDocument.TrueHeartbeats | src/tradingchassis_ops_lab/observability/metrics.py:574-580 | any run whose heartbeat count is true is not read back |
| RunDocument.RunSeriesUnique | src/tradingchassis_ops_lab/observability/metrics.py:654-692 | all series of a run are distinct if and only if the stripped names of its usable drills are |
| RunDocument.RunGrouped | src/tradingchassis_ops_lab/observability/metrics.py:654-692 | each family of a run stands in one group if and only if at most one drill is usable |
| RunDocument.RepeatedDrill | src/tradingchassis_ops_lab/observability/metrics.py:654-692 | a run with two reports of one drill has a series twice and scatters its families |
| RunClash.ClashExact | src/tradingchassis_ops_lab/observability/metrics.py:305-692 | two runs share a series if and only if they clash: equal info labels, or equal core labels and a common record (readiness, probe, time, figure, journal or reconciliation), or an equal run id and a common switch state, scenario gauge or drill name |
| RunDocument.RunApart | src/tradingchassis_ops_lab/observability/metrics.py:320-692 | families come in a fixed order, every metric carries the run's id, and values are numbers exactly under the stated condition |
| RunDocument.JournalConserved | src/tradingchassis_ops_lab/observability/metrics.py:589-608 | one line for each event name that occurs, with its count; the counts add up to the usable entries and the total is the number of entries |
| EvidenceMetrics.Aggregate | src/tradingchassis_ops_lab/observability/metrics.py:755-804 | the loop computes the specified totals |
| EvidenceMetrics.RenderEvidence | src/tradingchassis_ops_lab/observability/metrics.py:750-871 | the evidence text is the document of the specified lines, empty when nothing was found |
| EvidenceDocument.PointwiseSums | src/tradingchassis_ops_lab/observability/metrics.py:755-804 | every counter is the sum over the files of what each is worth; a malformed file counts only as skipped, once |
| EvidenceDocument.ReportedExactly | src/tradingchassis_ops_lab/observability/metrics.py:725-858 | if anything is found in the files, the evidence lines are exactly one for each status, artifact and class that some file counts, with the sum over the files, a status also with its literal code, and the two totals; otherwise there are none |
| EvidenceDocument.CommentsExactly | src/tradingchassis_ops_lab/observability/metrics.py:860-869 | one comment with the literal text for each malformed file, in the order in which they are found |
| EvidenceDocument.OrderIrrelevant | src/tradingchassis_ops_lab/observability/metrics.py:816-858 | the sample lines do not depend on the order of the files |
| EvidenceDocument.ZeroExactly | src/tradingchassis_ops_lab/observability/metrics.py:806-814 | the early return is taken if and only if no file counts for anything and none is malformed |
| EvidenceDocument.MalformedChangesNothing | src/tradingchassis_ops_lab/observability/metrics.py:763-858 | a malformed file adds one skip comment, and leaves the emitted sample lines as they are if and only if something is found in the other files |
| EvidenceDocument.MalformedAlone | src/tradingchassis_ops_lab/observability/metrics.py:806-849 | the failing input: a malformed file alone makes both totals appear as 0, where without it nothing is written |
| EvidenceDocument.EvidenceRoundTrip | src/tradingchassis_ops_lab/observability/metrics.py:816-871 | a scraper reads exactly the evidence samples if and only if every comment on a skipped path is contained; their series are distinct |
| EvidenceDocument.EvidenceGrouped | src/tradingchassis_ops_lab/observability/metrics.py:816-829 | each family of the evidence part stands in one group if and only if its files state at most one status |
| EvidenceDocument.TwoStatuses | src/tradingchassis_ops_lab/observability/metrics.py:816-829 | two files with different statuses break the rule |
| MetricsDocument.RenderMetricsText | src/tradingchassis_ops_lab/observability/metrics.py:874-933 | the whole text is the document of the specified lines: one run, all runs in name order, or the comment that stands for them, then the evidence |
| MetricsDocument.SelectedRun | src/tradingchassis_ops_lab/observability/metrics.py:885-902 | a selected run is the one of that name in the store, its samples before its comments; if it is not there or refused, one literal comment; the evidence comes last |
| Sorting.StringLeMeaning | src/tradingchassis_ops_lab/observability/metrics.py:718 | the order of run names: the first character in which two differ decides, a prefix comes first |
| MetricsDocument.AllRuns | src/tradingchassis_ops_lab/observability/metrics.py:904-933 | without a selection every run directory stands once, in ascending order of names, a refused one as a literal comment; then the evidence |
| MetricsDocument.DocumentRead | src/tradingchassis_ops_lab/observability/metrics.py:874-933 | a scraper reads exactly the samples of all rendered runs and the evidence, in order, and no declaration, if and only if the inputs are clean |
| MetricsDocument.BrokenName | src/tradingchassis_ops_lab/observability/metrics.py:924-930 | one unreadable run directory with a line break in its name is enough to break the document |
| MetricsDocument.DeclaringName | src/tradingchassis_ops_lab/observability/metrics.py:924-930 | so is one whose name goes on like a TYPE line |
| DocumentSeries.DocumentUniqueExact | src/tradingchassis_ops_lab/observability/metrics.py:913-933 | all series of the document are distinct if and only if no two rendered runs clash and the stripped drill names of each run differ |
| DocumentSeries.DocumentUnique | src/tradingchassis_ops_lab/observability/metrics.py:913-933 | with pairwise distinct run ids, all series of the document are distinct if and only if each run's stripped drill names are |
| DocumentSeries.CopiesClash | src/tradingchassis_ops_lab/observability/metrics.py:310-335 | two rendered runs that agree on all labels of the info gauge repeat a series |
| DocumentSeries.EditedCopyClashes | src/tradingchassis_ops_lab/observability/metrics.py:310-335 | a copy of a run with another status clashes with it if the journal is shown |
| DocumentSeries.CopiedRun | src/tradingchassis_ops_lab/observability/metrics.py:310-335 | a document of all runs repeats a series if a run whose metadata gives its id stands under two names, with the status unchanged or the journal shown |
| DocumentSeries.TwoNames | src/tradingchassis_ops_lab/observability/metrics.py:310-335 | the least such store: one run under two names |
| DocumentSeries.DocumentGrouped | src/tradingchassis_ops_lab/observability/metrics.py:904-933 | every family of the document stands in one group if and only if each rendered run but the last has nothing but its info gauge, the last has at most one usable drill and the evidence states at most one status |
| DocumentSeries.TwoJournals | src/tradingchassis_ops_lab/observability/metrics.py:913-931 | two runs of which only the empty journals are known break the rule |

## Left out

- NaN, infinities and signalling decimals, and exponents beyond the library's limits; the decimal theorems
  are about finite values.
- Which texts `Decimal()` and `fromisoformat` accept, JSON and YAML encoding, SHA-256, uuid4 and the clock.
- The `g` format of non-integral floats (lossy by design) and the rounding of float arithmetic: floats are
  carried as the number text they are printed as, the duration as the stamp of the difference.
- MetricsDocument.Store: what makes a run directory unreadable is not modelled, only that it is; errors
  outside RunObservabilityError, such as a `data` field of metadata.json that is no object, are not either.
- Reconciliation.RunReconciliationCheck: payload validation, run-id checks and writing the result file.
- KillSwitch.Switch.Activate: run-id validation for blank ids, and a torn append to the event log (the append
  is one write).
- PaperLifecycle.ArtifactsAgree: does not speak of a journal line that breaks off, to which the next line would be
  glued; a crash in the middle of a metadata write is modelled, one in a kill command's snapshot is not.
- PaperRun.Workspace.RunKillCommand: races of two kill commands at sub-step granularity, and a metadata
  read-modify-write torn by the lifecycle's own write; the code takes no locks, and the claims do not hold there.
- PaperRun.Workspace.RunPaperLifecycle: config hashing, the copied spec and the other fields of metadata and
  metrics; a crash is an action of the step machine, not of the method.
- The readiness evaluation, the HTTP probe and its URL validation, evidence comparison and its report, the
  backtest engine, data preparation, drills, and the CLI and HTTP server around all this.
