/** The metrics of one run (observability/metrics.py, render_prometheus_text), specified: the artifacts they
    are made from, labels and encodings, what a run emits, and the faults that make it give up. */
module RunMetrics {
  import opened Decimals
  import opened MetricNames
  import opened MetricSeries
  import Sorting
  import Text

  // ---------------------------------------------------------------- artifacts

  /** Timestamps are microseconds; their float text is a given function. */
  type Stamper = int -> NumberText

  /** `None` stands for a missing key or, where the source asks for a type, for a value of another type. */
  datatype Metadata = Metadata(
    runId: Option<string>, mode: Option<string>, engine: Option<string>, venue: Option<string>,
    instrument: Option<string>, status: Option<string>, dataset: string, killSwitch: Option<string>,
    created: Option<int>, started: Option<int>, completed: Option<int>)

  datatype Scenario = Scenario(
    name: Option<string>, version: Option<string>, registered: Option<bool>, triggered: Option<bool>,
    barsSeen: Option<Whole>, orders: Option<Whole>, fills: Option<Whole>)

  datatype Figures = Figures(
    mode: Option<string>, engine: Option<string>, status: Option<string>, dataset: string, isPlaceholder: bool,
    engineExecuted: bool, candles: Option<Whole>, bars: Option<Whole>, engineSeconds: Option<NumberText>,
    scenario: Scenario, heartbeats: Option<Whole>, syntheticSeconds: Option<NumberText>)

  /** A field that may be null. */
  datatype Nullable<T> = Null | Present(value: T) | WrongType

  datatype ReadinessFile = ReadinessFile(
    state: Option<string>, enabled: Option<bool>, missing: Option<Whole>, probePerformed: Option<bool>)

  datatype ProbeFile = ProbeFile(
    state: Option<string>, probePerformed: Option<bool>, scope: Option<string>, errorClass: Nullable<string>,
    httpStatus: Nullable<Whole>, latencySeconds: Nullable<NumberText>)

  datatype Summary = Summary(ok: Option<Whole>, warning: Option<Whole>, mismatch: Option<Whole>, unknown: Option<Whole>)

  datatype ReconciliationFile = ReconciliationFile(status: string, summary: Option<Summary>, stamp: Option<int>)

  datatype DrillFile = DrillFile(name: Option<string>, pass: Option<bool>, outcome: Option<string>)

  datatype Artifacts = Artifacts(
    directory: string, metadata: Metadata, figures: Figures, readiness: Option<ReadinessFile>,
    probe: Option<ProbeFile>, includeJournal: bool, journal: seq<Option<string>>,
    reconciliation: Option<ReconciliationFile>, drills: seq<DrillFile>, skipComments: seq<string>)

  datatype File = ReadinessJson | ProbeJson | ReconciliationJson
  datatype Fault = Fault(file: File, field: string)

  /** `isinstance(x, str) and x.strip()`. */
  predicate Usable(s: Option<string>) {
    s.Some? && Text.NonBlank(s.value)
  }

  // ---------------------------------------------------------------- labels and encodings

  function OrElse(s: Option<string>, fallback: string): string {
    if s.Some? then s.value else fallback
  }

  function BoolLabel(b: bool): string {
    if b then "true" else "false"
  }

  /** metadata.json's own run id; the directory name only when it has none. */
  function RunIdOf(a: Artifacts): string {
    OrElse(a.metadata.runId, a.directory)
  }

  function CoreLabels(a: Artifacts): seq<(Key, string)> {
    [ (RunId, RunIdOf(a)),
      (Mode, OrElse(a.metadata.mode, OrElse(a.figures.mode, "unknown"))),
      (Engine, OrElse(a.metadata.engine, OrElse(a.figures.engine, "unknown"))),
      (Venue, OrElse(a.metadata.venue, "unknown")),
      (Instrument, OrElse(a.metadata.instrument, "unknown")) ]
  }

  function DatasetOf(a: Artifacts): string {
    if a.figures.dataset != "" then a.figures.dataset
    else if a.metadata.dataset != "" then a.metadata.dataset
    else "unknown"
  }

  function InfoLabels(a: Artifacts): seq<(Key, string)> {
    CoreLabels(a) +
    [ (Status, OrElse(a.metadata.status, OrElse(a.figures.status, "unknown"))),
      (Dataset, DatasetOf(a)),
      (IsPlaceholder, BoolLabel(a.figures.isPlaceholder)),
      (EngineExecuted, BoolLabel(a.figures.engineExecuted)) ]
  }

  function KillSwitchText(state: string): string {
    if Text.NonBlank(state) then Text.Strip(state) else "unknown"
  }

  function KillSwitchValue(state: string): int {
    if state == "absent" then 0 else if state == "cleared" then 1 else if state == "active" then 2 else -1
  }

  function ReadinessValue(state: string): int {
    if state == "disabled" then 0
    else if state == "configured" then 1
    else if state == "missing_credentials" then 2
    else if state == "invalid_config" then 3
    else -1
  }

  function ProbeValue(state: string): int {
    if state == "probe_ok" then 1
    else if state == "probe_http_error" then 2
    else if state == "probe_timeout" then 3
    else if state == "probe_unreachable" then 4
    else -1
  }

  function OutcomeValue(outcome: Option<string>): int {
    if !Usable(outcome) then -1
    else
      var s := Text.Strip(outcome.value);
      if s == "expected_warning" then 1
      else if s == "expected_mismatch" then 2
      else if s == "simulated_recovery_ok" then 3
      else -1
  }

  // ---------------------------------------------------------------- what a run emits

  function Maybe(family: Family, labels: seq<(Key, string)>, value: Option<Value>): seq<Metric> {
    if value.None? then [] else [Metric(family, labels, value.value)]
  }

  function Number(n: int): Option<Value> {
    Some(Integral(IntCount(n)))
  }

  function Counted(w: Option<Whole>): Option<Value> {
    if w.None? then None else Some(Integral(w.value))
  }

  function Flag(b: Option<bool>): Option<Value> {
    if b.None? then None else Number(if b.value then 1 else 0)
  }

  function Measured(t: Option<NumberText>): Option<Value> {
    if t.None? then None else Some(Float(t.value))
  }

  function Stamped(at: Option<int>, stamper: Stamper): Option<Value> {
    if at.None? then None else Some(Float(stamper(at.value)))
  }

  function ReadinessFault(r: ReadinessFile): Option<Fault> {
    if !Usable(r.state) then Some(Fault(ReadinessJson, "state"))
    else if r.enabled.None? then Some(Fault(ReadinessJson, "enabled"))
    else if r.missing.None? then Some(Fault(ReadinessJson, "missing_required_count"))
    else if r.probePerformed.None? then Some(Fault(ReadinessJson, "probe_performed"))
    else None
  }

  function ReadinessMetrics(core: seq<(Key, string)>, r: ReadinessFile): seq<Metric>
    requires ReadinessFault(r).None?
  {
    ReadinessGauges(core + [(State, r.state.value)], r)
  }

  function ReadinessGauges(labels: seq<(Key, string)>, r: ReadinessFile): seq<Metric>
    requires ReadinessFault(r).None?
  {
    Maybe(ReadinessState, labels, Number(ReadinessValue(r.state.value)))
    + Maybe(ReadinessEnabled, labels, Flag(r.enabled))
    + Maybe(ReadinessMissing, labels, Counted(r.missing))
    + Maybe(ReadinessProbePerformed, labels, Flag(r.probePerformed))
  }

  function ProbeFault(p: ProbeFile): Option<Fault> {
    if !Usable(p.state) then Some(Fault(ProbeJson, "state"))
    else if p.probePerformed.None? then Some(Fault(ProbeJson, "probe_performed"))
    else if !Usable(p.scope) then Some(Fault(ProbeJson, "network_scope"))
    else if p.errorClass.WrongType? || (p.errorClass.Present? && !Text.NonBlank(p.errorClass.value)) then
      Some(Fault(ProbeJson, "error_class"))
    else if p.httpStatus.WrongType? then Some(Fault(ProbeJson, "http_status"))
    else if p.latencySeconds.WrongType? then Some(Fault(ProbeJson, "latency_ms"))
    else None
  }

  function ProbeLabels(core: seq<(Key, string)>, p: ProbeFile): seq<(Key, string)>
    requires ProbeFault(p).None?
  {
    var labels := core + [(State, p.state.value), (NetworkScope, p.scope.value)];
    if p.errorClass.Present? then labels + [(ErrorClass, p.errorClass.value)] else labels
  }

  function ProbeMetrics(core: seq<(Key, string)>, p: ProbeFile): seq<Metric>
    requires ProbeFault(p).None?
  {
    ProbeGauges(ProbeLabels(core, p), p)
  }

  function ProbeGauges(labels: seq<(Key, string)>, p: ProbeFile): seq<Metric>
    requires ProbeFault(p).None?
  {
    Maybe(ProbeState, labels, Number(ProbeValue(p.state.value)))
    + Maybe(ProbePerformed, labels, Flag(p.probePerformed))
    + Maybe(ProbeLatency, labels, if p.latencySeconds.Present? then Measured(Some(p.latencySeconds.value)) else None)
    + Maybe(ProbeHttpStatus, labels, if p.httpStatus.Present? then Counted(Some(p.httpStatus.value)) else None)
  }

  function KillSwitchMetrics(runId: string, state: Option<string>): seq<Metric> {
    if state.None? then []
    else
      var text := KillSwitchText(state.value);
      Maybe(KillSwitchState, [(RunId, runId), (State, text)], Number(KillSwitchValue(text)))
  }

  function Duration(m: Metadata): Option<int> {
    if m.started.None? || m.completed.None? then None
    else
      var d := m.completed.value - m.started.value;
      Some(if d < 0 then 0 else d)
  }

  function TimeMetrics(core: seq<(Key, string)>, m: Metadata, stamper: Stamper): seq<Metric> {
    Maybe(RunCreated, core, Stamped(m.created, stamper))
    + Maybe(RunStarted, core, Stamped(m.started, stamper))
    + Maybe(RunCompleted, core, Stamped(m.completed, stamper))
    + Maybe(RunDuration, core, Stamped(Duration(m), stamper))
  }

  function BacktestMetrics(core: seq<(Key, string)>, f: Figures): seq<Metric> {
    Maybe(InputCandles, core, Counted(f.candles))
    + Maybe(BarsProcessed, core, Counted(f.bars))
    + Maybe(EngineDuration, core, Measured(f.engineSeconds))
  }

  function ScenarioLabels(runId: string, s: Scenario): seq<(Key, string)>
    requires Usable(s.name)
  {
    [(RunId, runId), (ScenarioName, s.name.value)]
    + (if Usable(s.version) then [(ScenarioVersion, s.version.value)] else [])
  }

  function ScenarioMetrics(runId: string, s: Scenario): seq<Metric> {
    if Usable(s.name) then ScenarioGauges(ScenarioLabels(runId, s), s) else []
  }

  function ScenarioGauges(labels: seq<(Key, string)>, s: Scenario): seq<Metric> {
    Maybe(StrategyRegistered, labels, Flag(s.registered))
    + Maybe(ActionTriggered, labels, Flag(s.triggered))
    + Maybe(BarsSeen, labels, Counted(s.barsSeen))
    + Maybe(OrdersSubmitted, labels, Counted(s.orders))
    + Maybe(Fills, labels, Counted(s.fills))
  }

  function PaperMetrics(core: seq<(Key, string)>, f: Figures): seq<Metric> {
    Maybe(HeartbeatTotal, core, Counted(f.heartbeats))
    + Maybe(SyntheticDuration, core, Measured(f.syntheticSeconds))
  }

  /** The journal entries that carry an event name. */
  function EventNames(journal: seq<Option<string>>): seq<string> {
    if journal == [] then []
    else (if Usable(journal[0]) then [journal[0].value] else []) + EventNames(journal[1..])
  }

  function EventMetrics(core: seq<(Key, string)>, names: seq<string>, counts: multiset<string>): seq<Metric> {
    seq(|names|, i requires 0 <= i < |names| =>
      Metric(JournalEventTotal, core + [(Event, names[i])], Integral(IntCount(counts[names[i]]))))
  }

  function Names(counts: multiset<string>): set<string> {
    set e <- counts
  }

  ghost function JournalMetrics(core: seq<(Key, string)>, journal: seq<Option<string>>): seq<Metric> {
    var counts := multiset(EventNames(journal));
    Maybe(JournalEventsTotal, core, Number(|journal|))
    + EventMetrics(core, Sorting.SortedStrings(Names(counts)), counts)
  }

  const SEVERITIES: seq<string> := ["ok", "warning", "mismatch", "unknown"]
  const SUMMARY_FIELDS: seq<string> := ["summary.ok", "summary.warning", "summary.mismatch", "summary.unknown"]

  function Tally(s: Summary, severity: nat): Option<Whole>
    requires severity < 4
  {
    if severity == 0 then s.ok
    else if severity == 1 then s.warning
    else if severity == 2 then s.mismatch
    else s.unknown
  }

  function SummaryFault(s: Summary, from: nat): Option<Fault>
    requires from <= 4
    decreases 4 - from
  {
    if from == 4 then None
    else if Tally(s, from).None? then Some(Fault(ReconciliationJson, SUMMARY_FIELDS[from]))
    else SummaryFault(s, from + 1)
  }

  function ReconciliationFault(r: ReconciliationFile): Option<Fault> {
    if r.status !in SEVERITIES then Some(Fault(ReconciliationJson, "status"))
    else if r.summary.None? then Some(Fault(ReconciliationJson, "summary"))
    else if SummaryFault(r.summary.value, 0).Some? then SummaryFault(r.summary.value, 0)
    else if r.stamp.None? then Some(Fault(ReconciliationJson, "ts_utc"))
    else None
  }

  function CheckMetric(core: seq<(Key, string)>, s: Summary, severity: nat): seq<Metric>
    requires severity < 4
  {
    Maybe(ReconciliationChecks, core + [(Severity, SEVERITIES[severity])], Counted(Tally(s, severity)))
  }

  function CheckMetrics(core: seq<(Key, string)>, s: Summary, upTo: nat): seq<Metric>
    requires upTo <= 4
  {
    if upTo == 0 then [] else CheckMetrics(core, s, upTo - 1) + CheckMetric(core, s, upTo - 1)
  }

  function ReconciliationMetrics(core: seq<(Key, string)>, r: ReconciliationFile, stamper: Stamper): seq<Metric>
    requires ReconciliationFault(r).None?
  {
    Maybe(ReconciliationStatus, core + [(Status, r.status)], Number(1))
    + CheckMetrics(core, r.summary.value, 4)
    + Maybe(ReconciliationTimestamp, core, Stamped(r.stamp, stamper))
  }

  function DrillLabels(runId: string, d: DrillFile): seq<(Key, string)>
    requires Usable(d.name)
  {
    [(RunId, runId), (DrillName, Text.Strip(d.name.value))]
  }

  function DrillMetrics(runId: string, d: DrillFile): seq<Metric> {
    if Usable(d.name) then DrillGauges(DrillLabels(runId, d), d) else []
  }

  function PassValue(pass: Option<bool>): int {
    if pass.None? then -1 else if pass.value then 1 else 0
  }

  function DrillGauges(labels: seq<(Key, string)>, d: DrillFile): seq<Metric> {
    [ Metric(DrillExecuted, labels, Integral(IntCount(1))),
      Metric(DrillLastPass, labels, Integral(IntCount(PassValue(d.pass)))),
      Metric(DrillLastOutcome, labels, Integral(IntCount(OutcomeValue(d.outcome)))) ]
  }

  function AllDrillMetrics(runId: string, drills: seq<DrillFile>): seq<Metric> {
    if drills == [] then []
    else AllDrillMetrics(runId, drills[..|drills| - 1]) + DrillMetrics(runId, drills[|drills| - 1])
  }

  function StateFault(a: Artifacts): Option<Fault> {
    if a.readiness.Some? && ReadinessFault(a.readiness.value).Some? then ReadinessFault(a.readiness.value)
    else if a.probe.Some? then ProbeFault(a.probe.value)
    else None
  }

  function RecordFault(a: Artifacts): Option<Fault> {
    if a.reconciliation.Some? then ReconciliationFault(a.reconciliation.value) else None
  }

  /** The first fault met, if any: the run is then not rendered at all. */
  function RunFault(a: Artifacts): Option<Fault> {
    if StateFault(a).Some? then StateFault(a) else RecordFault(a)
  }

  function ConnectivityMetrics(a: Artifacts): seq<Metric>
    requires StateFault(a).None?
  {
    (if a.readiness.Some? then ReadinessMetrics(CoreLabels(a), a.readiness.value) else [])
    + (if a.probe.Some? then ProbeMetrics(CoreLabels(a), a.probe.value) else [])
  }

  function ResultMetrics(a: Artifacts, stamper: Stamper): seq<Metric> {
    KillSwitchMetrics(RunIdOf(a), a.metadata.killSwitch)
    + TimeMetrics(CoreLabels(a), a.metadata, stamper)
    + BacktestMetrics(CoreLabels(a), a.figures)
    + ScenarioMetrics(RunIdOf(a), a.figures.scenario)
    + PaperMetrics(CoreLabels(a), a.figures)
  }

  ghost function RecordMetrics(a: Artifacts, stamper: Stamper): seq<Metric>
    requires RecordFault(a).None?
  {
    (if a.includeJournal then JournalMetrics(CoreLabels(a), a.journal) else [])
    + (if a.reconciliation.Some? then ReconciliationMetrics(CoreLabels(a), a.reconciliation.value, stamper) else [])
  }

  /** All that a run emits before its drills. */
  ghost function FrontMetrics(a: Artifacts, stamper: Stamper): seq<Metric>
    requires RunFault(a).None?
  {
    Maybe(RunInfo, InfoLabels(a), Number(1))
    + ConnectivityMetrics(a)
    + ResultMetrics(a, stamper)
    + RecordMetrics(a, stamper)
  }

  /** Everything a run emits, in order. */
  ghost function RunMetrics(a: Artifacts, stamper: Stamper): seq<Metric>
    requires RunFault(a).None?
  {
    FrontMetrics(a, stamper) + AllDrillMetrics(RunIdOf(a), a.drills)
  }
}
