/** The metric families and label names of observability/metrics.py, and why distinct ones have
    distinct, well-formed names. */
module MetricNames {
  import opened PrometheusText

  datatype Area =
    | Run
    | Readiness
    | Probe
    | KillSwitch
    | Backtest
    | Scenario
    | Paper
    | Journal
    | Reconciliation
    | Drill
    | Comparison
    | Evidence
  {
    function Text(): string {
      match this
      case Run => "run_"
      case Readiness => "connectivity_readiness_"
      case Probe => "connectivity_probe_"
      case KillSwitch => "kill_switch_"
      case Backtest => "backtest_"
      case Scenario => "backtest_scenario_"
      case Paper => "paper_"
      case Journal => "journal_"
      case Reconciliation => "reconciliation_"
      case Drill => "failure_drill_"
      case Comparison => "evidence_backtest_vs_paper_"
      case Evidence => "evidence_"
    }
  }

  /** In the order in which a run's families are written; evidence comes last. */
  datatype Family =
    | RunInfo | ReadinessState | ReadinessEnabled | ReadinessMissing | ReadinessProbePerformed | ProbeState
    | ProbePerformed | ProbeLatency | ProbeHttpStatus | KillSwitchState | RunCreated | RunStarted
    | RunCompleted | RunDuration | InputCandles | BarsProcessed | EngineDuration | StrategyRegistered
    | ActionTriggered | BarsSeen | OrdersSubmitted | Fills | HeartbeatTotal | SyntheticDuration
    | JournalEventsTotal | JournalEventTotal | ReconciliationStatus | ReconciliationChecks
    | ReconciliationTimestamp | DrillExecuted | DrillLastPass | DrillLastOutcome | EvidenceStatusTotal
    | EvidenceStatus | EvidenceArtifacts | EvidenceKnownGaps | EvidenceSharedEvents | EvidenceComparedFields
  {
    function Group(): Area {
      match this
      case RunInfo => Area.Run
      case ReadinessState => Area.Readiness
      case ReadinessEnabled => Area.Readiness
      case ReadinessMissing => Area.Readiness
      case ReadinessProbePerformed => Area.Readiness
      case ProbeState => Area.Probe
      case ProbePerformed => Area.Probe
      case ProbeLatency => Area.Probe
      case ProbeHttpStatus => Area.Probe
      case KillSwitchState => Area.KillSwitch
      case RunCreated => Area.Run
      case RunStarted => Area.Run
      case RunCompleted => Area.Run
      case RunDuration => Area.Run
      case InputCandles => Area.Backtest
      case BarsProcessed => Area.Backtest
      case EngineDuration => Area.Backtest
      case StrategyRegistered => Area.Scenario
      case ActionTriggered => Area.Scenario
      case BarsSeen => Area.Scenario
      case OrdersSubmitted => Area.Scenario
      case Fills => Area.Scenario
      case HeartbeatTotal => Area.Paper
      case SyntheticDuration => Area.Paper
      case JournalEventsTotal => Area.Journal
      case JournalEventTotal => Area.Journal
      case ReconciliationStatus => Area.Reconciliation
      case ReconciliationChecks => Area.Reconciliation
      case ReconciliationTimestamp => Area.Reconciliation
      case DrillExecuted => Area.Drill
      case DrillLastPass => Area.Drill
      case DrillLastOutcome => Area.Drill
      case EvidenceStatusTotal => Area.Comparison
      case EvidenceStatus => Area.Comparison
      case EvidenceArtifacts => Area.Evidence
      case EvidenceKnownGaps => Area.Evidence
      case EvidenceSharedEvents => Area.Evidence
      case EvidenceComparedFields => Area.Evidence
    }

    function Tail(): string {
      match this
      case RunInfo => "info"
      case ReadinessState => "state"
      case ReadinessEnabled => "enabled"
      case ReadinessMissing => "missing_required_env_total"
      case ReadinessProbePerformed => "probe_performed"
      case ProbeState => "state"
      case ProbePerformed => "performed"
      case ProbeLatency => "latency_seconds"
      case ProbeHttpStatus => "http_status"
      case KillSwitchState => "state"
      case RunCreated => "created_timestamp_seconds"
      case RunStarted => "started_timestamp_seconds"
      case RunCompleted => "completed_timestamp_seconds"
      case RunDuration => "duration_seconds"
      case InputCandles => "input_candles_total"
      case BarsProcessed => "bars_processed_total"
      case EngineDuration => "engine_duration_seconds"
      case StrategyRegistered => "strategy_registered"
      case ActionTriggered => "deterministic_action_triggered"
      case BarsSeen => "bars_seen_total"
      case OrdersSubmitted => "orders_submitted_total"
      case Fills => "fills_total"
      case HeartbeatTotal => "heartbeat_total"
      case SyntheticDuration => "synthetic_duration_seconds"
      case JournalEventsTotal => "events_total"
      case JournalEventTotal => "event_total"
      case ReconciliationStatus => "status"
      case ReconciliationChecks => "checks_total"
      case ReconciliationTimestamp => "last_timestamp_seconds"
      case DrillExecuted => "executed_total"
      case DrillLastPass => "last_pass"
      case DrillLastOutcome => "last_outcome"
      case EvidenceStatusTotal => "status_total"
      case EvidenceStatus => "status"
      case EvidenceArtifacts => "artifacts_present_total"
      case EvidenceKnownGaps => "known_gaps_total"
      case EvidenceSharedEvents => "journal_shared_events_total"
      case EvidenceComparedFields => "compared_fields_total"
    }

    function Rank(): nat {
      match this
      case RunInfo => 0
      case ReadinessState => 1
      case ReadinessEnabled => 2
      case ReadinessMissing => 3
      case ReadinessProbePerformed => 4
      case ProbeState => 5
      case ProbePerformed => 6
      case ProbeLatency => 7
      case ProbeHttpStatus => 8
      case KillSwitchState => 9
      case RunCreated => 10
      case RunStarted => 11
      case RunCompleted => 12
      case RunDuration => 13
      case InputCandles => 14
      case BarsProcessed => 15
      case EngineDuration => 16
      case StrategyRegistered => 17
      case ActionTriggered => 18
      case BarsSeen => 19
      case OrdersSubmitted => 20
      case Fills => 21
      case HeartbeatTotal => 22
      case SyntheticDuration => 23
      case JournalEventsTotal => 24
      case JournalEventTotal => 25
      case ReconciliationStatus => 26
      case ReconciliationChecks => 27
      case ReconciliationTimestamp => 28
      case DrillExecuted => 29
      case DrillLastPass => 29
      case DrillLastOutcome => 29
      case EvidenceStatusTotal => 30
      case EvidenceStatus => 30
      case EvidenceArtifacts => 31
      case EvidenceKnownGaps => 32
      case EvidenceSharedEvents => 33
      case EvidenceComparedFields => 34
    }

    function Suffix(): string {
      Group().Text() + Tail()
    }

    function Text(): string {
      "tradingchassis_ops_lab_" + Suffix()
    }
  }

  datatype Key =
    | RunId | Mode | Engine | Venue | Instrument | Status | Dataset | IsPlaceholder | EngineExecuted | State
    | NetworkScope | ErrorClass | ScenarioName | ScenarioVersion | Event | Severity | DrillName
    | ComparisonStatus | Side | Artifact | Classification
  {
    function Text(): string {
      match this
      case RunId => "run_id"
      case Mode => "mode"
      case Engine => "engine"
      case Venue => "venue"
      case Instrument => "instrument"
      case Status => "status"
      case Dataset => "dataset"
      case IsPlaceholder => "is_placeholder"
      case EngineExecuted => "engine_executed"
      case State => "state"
      case NetworkScope => "network_scope"
      case ErrorClass => "error_class"
      case ScenarioName => "scenario_name"
      case ScenarioVersion => "scenario_version"
      case Event => "event"
      case Severity => "severity"
      case DrillName => "drill_name"
      case ComparisonStatus => "comparison_status"
      case Side => "side"
      case Artifact => "artifact"
      case Classification => "classification"
    }

    /** Every label list is written in this order. */
    function Order(): nat {
      match this
      case RunId => 0
      case Mode => 1
      case Engine => 2
      case Venue => 3
      case Instrument => 4
      case Status => 5
      case Dataset => 6
      case IsPlaceholder => 7
      case EngineExecuted => 8
      case State => 9
      case NetworkScope => 10
      case ErrorClass => 11
      case ScenarioName => 12
      case ScenarioVersion => 13
      case Event => 14
      case Severity => 15
      case DrillName => 16
      case ComparisonStatus => 17
      case Side => 18
      case Artifact => 19
      case Classification => 20
    }
  }

  // ---------------------------------------------------------------- the names in full

  /** The name of a family, its prefix, area and what is measured there, and the name of a label. */
  lemma NamesSaid(f: Family, k: Key)
    ensures f.Group().Text() == match f
      case RunInfo | RunCreated | RunStarted | RunCompleted | RunDuration => "run_"
      case ReadinessState | ReadinessEnabled | ReadinessMissing |
        ReadinessProbePerformed => "connectivity_readiness_"
      case ProbeState | ProbePerformed | ProbeLatency | ProbeHttpStatus => "connectivity_probe_"
      case KillSwitchState => "kill_switch_"
      case InputCandles | BarsProcessed | EngineDuration => "backtest_"
      case StrategyRegistered | ActionTriggered | BarsSeen | OrdersSubmitted | Fills => "backtest_scenario_"
      case HeartbeatTotal | SyntheticDuration => "paper_"
      case JournalEventsTotal | JournalEventTotal => "journal_"
      case ReconciliationStatus | ReconciliationChecks | ReconciliationTimestamp => "reconciliation_"
      case DrillExecuted | DrillLastPass | DrillLastOutcome => "failure_drill_"
      case EvidenceStatusTotal | EvidenceStatus => "evidence_backtest_vs_paper_"
      case EvidenceArtifacts | EvidenceKnownGaps | EvidenceSharedEvents | EvidenceComparedFields => "evidence_"
    ensures f.Tail() == match f
      case RunInfo => "info" case ReadinessState => "state" case ReadinessEnabled => "enabled"
      case ReadinessMissing => "missing_required_env_total" case ReadinessProbePerformed => "probe_performed"
      case ProbeState => "state" case ProbePerformed => "performed" case ProbeLatency => "latency_seconds"
      case ProbeHttpStatus => "http_status" case KillSwitchState => "state"
      case RunCreated => "created_timestamp_seconds" case RunStarted => "started_timestamp_seconds"
      case RunCompleted => "completed_timestamp_seconds" case RunDuration => "duration_seconds"
      case InputCandles => "input_candles_total" case BarsProcessed => "bars_processed_total"
      case EngineDuration => "engine_duration_seconds" case StrategyRegistered => "strategy_registered"
      case ActionTriggered => "deterministic_action_triggered" case BarsSeen => "bars_seen_total"
      case OrdersSubmitted => "orders_submitted_total" case Fills => "fills_total"
      case HeartbeatTotal => "heartbeat_total" case SyntheticDuration => "synthetic_duration_seconds"
      case JournalEventsTotal => "events_total" case JournalEventTotal => "event_total"
      case ReconciliationStatus => "status" case ReconciliationChecks => "checks_total"
      case ReconciliationTimestamp => "last_timestamp_seconds" case DrillExecuted => "executed_total"
      case DrillLastPass => "last_pass" case DrillLastOutcome => "last_outcome"
      case EvidenceStatusTotal => "status_total" case EvidenceStatus => "status"
      case EvidenceArtifacts => "artifacts_present_total" case EvidenceKnownGaps => "known_gaps_total"
      case EvidenceSharedEvents => "journal_shared_events_total"
      case EvidenceComparedFields => "compared_fields_total"
    ensures f.Text() == "tradingchassis_ops_lab_" + (f.Group().Text() + f.Tail())
    ensures k.Text() == match k
      case RunId => "run_id" case Mode => "mode" case Engine => "engine" case Venue => "venue"
      case Instrument => "instrument" case Status => "status" case Dataset => "dataset"
      case IsPlaceholder => "is_placeholder" case EngineExecuted => "engine_executed" case State => "state"
      case NetworkScope => "network_scope" case ErrorClass => "error_class"
      case ScenarioName => "scenario_name" case ScenarioVersion => "scenario_version" case Event => "event"
      case Severity => "severity" case DrillName => "drill_name" case ComparisonStatus => "comparison_status"
      case Side => "side" case Artifact => "artifact" case Classification => "classification"
  {
  }

  // ---------------------------------------------------------------- distinct families, distinct names

  /** The family a suffix belongs to, told by its length and a letter or two. */
  function Recognize(s: string): Family {
    var n := |s|;
    if n == 8 then RunInfo
    else if n == 17 then KillSwitchState
    else if n == 19 then JournalEventTotal
    else if n == 20 then (if s[0] == 'r' then RunDuration else JournalEventsTotal)
    else if n == 21 then (if s[0] == 'p' then HeartbeatTotal else ReconciliationStatus)
    else if n == 23 then DrillLastPass
    else if n == 24 then ProbeState
    else if n == 25 then EvidenceKnownGaps
    else if n == 26 then DrillLastOutcome
    else if n == 27 then ReconciliationChecks
    else if n == 28 then
      (if s[0] == 'b' then InputCandles else if s[0] == 'f' then DrillExecuted
       else if s[13] == 'r' then ReadinessState else ProbePerformed)
    else if n == 29 then
      (if s[0] == 'r' then (if s[4] == 'c' then RunCreated else RunStarted)
       else if s[9] == 'b' then BarsProcessed else Fills)
    else if n == 30 then
      (if s[0] == 'e' then EvidenceComparedFields else if s[13] == 'r' then ReadinessEnabled else ProbeHttpStatus)
    else if n == 31 then RunCompleted
    else if n == 32 then
      (if s[0] == 'b' then EngineDuration else if s[0] == 'p' then SyntheticDuration else EvidenceArtifacts)
    else if n == 33 then (if s[0] == 'b' then BarsSeen else EvidenceStatus)
    else if n == 34 then ProbeLatency
    else if n == 36 then EvidenceSharedEvents
    else if n == 37 then (if s[0] == 'b' then StrategyRegistered else ReconciliationTimestamp)
    else if n == 38 then ReadinessProbePerformed
    else if n == 39 then EvidenceStatusTotal
    else if n == 40 then OrdersSubmitted
    else if n == 48 then ActionTriggered
    else ReadinessMissing
  }

  lemma RunRecognized(f: Family)
    requires f.RunInfo? || f.RunDuration? || f.KillSwitchState? || f.RunCreated? || f.RunStarted?
      || f.RunCompleted?
    ensures Recognize(f.Suffix()) == f
  {
    match f {
      case RunInfo => assert |f.Suffix()| == 8;
      case RunDuration => assert |f.Suffix()| == 20;
      case KillSwitchState => assert |f.Suffix()| == 17;
      case RunCreated => assert |f.Suffix()| == 29;
      case RunStarted => assert |f.Suffix()| == 29;
      case RunCompleted => assert |f.Suffix()| == 31;
      case _ =>
    }
  }

  lemma ReadinessRecognized(f: Family)
    requires f.ReadinessState? || f.ReadinessEnabled? || f.ReadinessMissing? || f.ReadinessProbePerformed?
      || f.ProbeState? || f.ProbePerformed? || f.ProbeLatency? || f.ProbeHttpStatus?
    ensures Recognize(f.Suffix()) == f
  {
    match f {
      case ReadinessState => assert |f.Suffix()| == 28;
      case ReadinessEnabled => assert |f.Suffix()| == 30;
      case ReadinessMissing => assert |f.Suffix()| == 49;
      case ReadinessProbePerformed => assert |f.Suffix()| == 38;
      case ProbeState => assert |f.Suffix()| == 24;
      case ProbePerformed => assert |f.Suffix()| == 28;
      case ProbeLatency => assert |f.Suffix()| == 34;
      case ProbeHttpStatus => assert |f.Suffix()| == 30;
      case _ =>
    }
  }

  lemma BacktestRecognized(f: Family)
    requires f.InputCandles? || f.BarsProcessed? || f.EngineDuration? || f.StrategyRegistered?
      || f.ActionTriggered?
    ensures Recognize(f.Suffix()) == f
  {
    match f {
      case InputCandles => assert |f.Suffix()| == 28;
      case BarsProcessed => assert |f.Suffix()| == 29;
      case EngineDuration => assert |f.Suffix()| == 32;
      case StrategyRegistered => assert |f.Suffix()| == 37;
      case ActionTriggered => assert |f.Suffix()| == 48;
      case _ =>
    }
  }

  lemma TotalRecognized(f: Family)
    requires f.BarsSeen? || f.OrdersSubmitted? || f.Fills? || f.HeartbeatTotal? || f.SyntheticDuration?
      || f.JournalEventsTotal? || f.JournalEventTotal?
    ensures Recognize(f.Suffix()) == f
  {
    match f {
      case BarsSeen => assert |f.Suffix()| == 33;
      case OrdersSubmitted => assert |f.Suffix()| == 40;
      case Fills => assert |f.Suffix()| == 29;
      case HeartbeatTotal => assert |f.Suffix()| == 21;
      case SyntheticDuration => assert |f.Suffix()| == 32;
      case JournalEventsTotal => assert |f.Suffix()| == 20;
      case JournalEventTotal => assert |f.Suffix()| == 19;
      case _ =>
    }
  }

  lemma CheckRecognized(f: Family)
    requires f.ReconciliationStatus? || f.ReconciliationChecks? || f.ReconciliationTimestamp?
      || f.DrillExecuted? || f.DrillLastPass? || f.DrillLastOutcome?
    ensures Recognize(f.Suffix()) == f
  {
    match f {
      case ReconciliationStatus => assert |f.Suffix()| == 21;
      case ReconciliationChecks => assert |f.Suffix()| == 27;
      case ReconciliationTimestamp => assert |f.Suffix()| == 37;
      case DrillExecuted => assert |f.Suffix()| == 28;
      case DrillLastPass => assert |f.Suffix()| == 23;
      case DrillLastOutcome => assert |f.Suffix()| == 26;
      case _ =>
    }
  }

  lemma EvidenceRecognized(f: Family)
    requires f.EvidenceStatusTotal? || f.EvidenceStatus? || f.EvidenceArtifacts? || f.EvidenceKnownGaps?
      || f.EvidenceSharedEvents? || f.EvidenceComparedFields?
    ensures Recognize(f.Suffix()) == f
  {
    match f {
      case EvidenceStatusTotal => assert |f.Suffix()| == 39;
      case EvidenceStatus => assert |f.Suffix()| == 33;
      case EvidenceArtifacts => assert |f.Suffix()| == 32;
      case EvidenceKnownGaps => assert |f.Suffix()| == 25;
      case EvidenceSharedEvents => assert |f.Suffix()| == 36;
      case EvidenceComparedFields => assert |f.Suffix()| == 30;
      case _ =>
    }
  }

  lemma Recognized(f: Family)
    ensures Recognize(f.Suffix()) == f
  {
    match f {
      case RunInfo | RunDuration | KillSwitchState | RunCreated | RunStarted | RunCompleted => RunRecognized(f);
      case ReadinessState | ReadinessEnabled | ReadinessMissing | ReadinessProbePerformed
        | ProbeState | ProbePerformed | ProbeLatency | ProbeHttpStatus => ReadinessRecognized(f);
      case InputCandles | BarsProcessed | EngineDuration | StrategyRegistered
        | ActionTriggered => BacktestRecognized(f);
      case BarsSeen | OrdersSubmitted | Fills | HeartbeatTotal | SyntheticDuration
        | JournalEventsTotal | JournalEventTotal => TotalRecognized(f);
      case ReconciliationStatus | ReconciliationChecks | ReconciliationTimestamp | DrillExecuted
        | DrillLastPass | DrillLastOutcome => CheckRecognized(f);
      case EvidenceStatusTotal | EvidenceStatus | EvidenceArtifacts | EvidenceKnownGaps
        | EvidenceSharedEvents | EvidenceComparedFields => EvidenceRecognized(f);
    }
  }

  lemma NamesApart(f: Family, g: Family)
    requires f.Text() == g.Text()
    ensures f == g
  {
    var prefix := "tradingchassis_ops_lab_";
    assert f.Suffix() == f.Text()[|prefix|..] == g.Suffix();
    Recognized(f);
    Recognized(g);
  }

  function RecognizeKey(s: string): Key {
    var n := |s|;
    if n == 4 then (if s[0] == 'm' then Mode else Side)
    else if n == 5 then (if s[0] == 'v' then Venue else if s[0] == 's' then State else Event)
    else if n == 6 then (if s[0] == 'r' then RunId else if s[0] == 'e' then Engine else Status)
    else if n == 7 then Dataset
    else if n == 8 then (if s[0] == 's' then Severity else Artifact)
    else if n == 10 then (if s[0] == 'i' then Instrument else DrillName)
    else if n == 11 then ErrorClass
    else if n == 13 then (if s[0] == 'n' then NetworkScope else ScenarioName)
    else if n == 14 then (if s[0] == 'i' then IsPlaceholder else Classification)
    else if n == 15 then EngineExecuted
    else if n == 16 then ScenarioVersion
    else ComparisonStatus
  }

  lemma KeyRecognized(k: Key)
    ensures RecognizeKey(k.Text()) == k
  {
    match k {
      case RunId => assert |k.Text()| == 6;
      case Mode => assert |k.Text()| == 4;
      case Engine => assert |k.Text()| == 6;
      case Venue => assert |k.Text()| == 5;
      case Instrument => assert |k.Text()| == 10;
      case Status => assert |k.Text()| == 6;
      case Dataset => assert |k.Text()| == 7;
      case IsPlaceholder => assert |k.Text()| == 14;
      case EngineExecuted => assert |k.Text()| == 15;
      case State => assert |k.Text()| == 5;
      case NetworkScope => assert |k.Text()| == 13;
      case ErrorClass => assert |k.Text()| == 11;
      case ScenarioName => assert |k.Text()| == 13;
      case ScenarioVersion => assert |k.Text()| == 16;
      case Event => assert |k.Text()| == 5;
      case Severity => assert |k.Text()| == 8;
      case DrillName => assert |k.Text()| == 10;
      case ComparisonStatus => assert |k.Text()| == 17;
      case Side => assert |k.Text()| == 4;
      case Artifact => assert |k.Text()| == 8;
      case Classification => assert |k.Text()| == 14;
    }
  }

  lemma KeysApart(k: Key, l: Key)
    requires k.Text() == l.Text()
    ensures k == l
  {
    KeyRecognized(k);
    KeyRecognized(l);
  }

  // ---------------------------------------------------------------- every name is well-formed

  predicate Lower(s: string) {
    forall i :: 0 <= i < |s| ==> 'a' <= s[i] <= 'z' || s[i] == '_'
  }

  lemma AreaLowerOne(a: Area)
    requires a.Run? || a.Readiness? || a.Probe? || a.KillSwitch? || a.Backtest? || a.Scenario?
    ensures Lower(a.Text())
  {
    match a {
      case Run => assert Lower("run_");
      case Readiness => assert Lower("connectivity_readiness_");
      case Probe => assert Lower("connectivity_probe_");
      case KillSwitch => assert Lower("kill_switch_");
      case Backtest => assert Lower("backtest_");
      case Scenario => assert Lower("backtest_scenario_");
      case _ =>
    }
  }

  lemma AreaLowerTwo(a: Area)
    requires a.Paper? || a.Journal? || a.Reconciliation? || a.Drill? || a.Comparison? || a.Evidence?
    ensures Lower(a.Text())
  {
    match a {
      case Paper => assert Lower("paper_");
      case Journal => assert Lower("journal_");
      case Reconciliation => assert Lower("reconciliation_");
      case Drill => assert Lower("failure_drill_");
      case Comparison => assert Lower("evidence_backtest_vs_paper_");
      case Evidence => assert Lower("evidence_");
      case _ =>
    }
  }

  lemma AreaLower(a: Area)
    ensures Lower(a.Text())
  {
    match a {
      case Run | Readiness | Probe | KillSwitch | Backtest | Scenario => AreaLowerOne(a);
      case Paper | Journal | Reconciliation | Drill | Comparison | Evidence => AreaLowerTwo(a);
    }
  }

  lemma RunLower(f: Family)
    requires f.RunInfo? || f.RunDuration? || f.KillSwitchState?
    ensures Lower(f.Tail())
  {
    match f {
      case RunInfo => assert Lower("info");
      case RunDuration => assert Lower("duration_seconds");
      case KillSwitchState => assert Lower("state");
      case _ =>
    }
  }

  lemma StampLower(f: Family)
    requires f.RunCreated? || f.RunStarted? || f.RunCompleted?
    ensures Lower(f.Tail())
  {
    match f {
      case RunCreated => assert Lower("created_timestamp_seconds");
      case RunStarted => assert Lower("started_timestamp_seconds");
      case RunCompleted => assert Lower("completed_timestamp_seconds");
      case _ =>
    }
  }

  lemma ReadinessLower(f: Family)
    requires f.ReadinessState? || f.ReadinessEnabled? || f.ReadinessMissing? || f.ReadinessProbePerformed?
    ensures Lower(f.Tail())
  {
    match f {
      case ReadinessState => assert Lower("state");
      case ReadinessEnabled => assert Lower("enabled");
      case ReadinessMissing => assert Lower("missing_required_env_total");
      case ReadinessProbePerformed => assert Lower("probe_performed");
      case _ =>
    }
  }

  lemma ProbeLower(f: Family)
    requires f.ProbeState? || f.ProbePerformed? || f.ProbeLatency? || f.ProbeHttpStatus?
    ensures Lower(f.Tail())
  {
    match f {
      case ProbeState => assert Lower("state");
      case ProbePerformed => assert Lower("performed");
      case ProbeLatency => assert Lower("latency_seconds");
      case ProbeHttpStatus => assert Lower("http_status");
      case _ =>
    }
  }

  lemma BacktestLower(f: Family)
    requires f.InputCandles? || f.BarsProcessed? || f.EngineDuration?
    ensures Lower(f.Tail())
  {
    match f {
      case InputCandles => assert Lower("input_candles_total");
      case BarsProcessed => assert Lower("bars_processed_total");
      case EngineDuration => assert Lower("engine_duration_seconds");
      case _ =>
    }
  }

  lemma StrategyLower(f: Family)
    requires f.StrategyRegistered? || f.ActionTriggered?
    ensures Lower(f.Tail())
  {
    match f {
      case StrategyRegistered => assert Lower("strategy_registered");
      case ActionTriggered => assert Lower("deterministic_action_triggered");
      case _ =>
    }
  }

  lemma TotalLower(f: Family)
    requires f.BarsSeen? || f.OrdersSubmitted? || f.Fills?
    ensures Lower(f.Tail())
  {
    match f {
      case BarsSeen => assert Lower("bars_seen_total");
      case OrdersSubmitted => assert Lower("orders_submitted_total");
      case Fills => assert Lower("fills_total");
      case _ =>
    }
  }

  lemma PaperLower(f: Family)
    requires f.HeartbeatTotal? || f.SyntheticDuration? || f.JournalEventsTotal? || f.JournalEventTotal?
    ensures Lower(f.Tail())
  {
    match f {
      case HeartbeatTotal => assert Lower("heartbeat_total");
      case SyntheticDuration => assert Lower("synthetic_duration_seconds");
      case JournalEventsTotal => assert Lower("events_total");
      case JournalEventTotal => assert Lower("event_total");
      case _ =>
    }
  }

  lemma CheckLower(f: Family)
    requires f.ReconciliationStatus? || f.ReconciliationChecks? || f.ReconciliationTimestamp?
    ensures Lower(f.Tail())
  {
    match f {
      case ReconciliationStatus => assert Lower("status");
      case ReconciliationChecks => assert Lower("checks_total");
      case ReconciliationTimestamp => assert Lower("last_timestamp_seconds");
      case _ =>
    }
  }

  lemma DrillLower(f: Family)
    requires f.DrillExecuted? || f.DrillLastPass? || f.DrillLastOutcome?
    ensures Lower(f.Tail())
  {
    match f {
      case DrillExecuted => assert Lower("executed_total");
      case DrillLastPass => assert Lower("last_pass");
      case DrillLastOutcome => assert Lower("last_outcome");
      case _ =>
    }
  }

  lemma EvidenceLower(f: Family)
    requires f.EvidenceStatusTotal? || f.EvidenceStatus? || f.EvidenceArtifacts?
    ensures Lower(f.Tail())
  {
    match f {
      case EvidenceStatusTotal => assert Lower("status_total");
      case EvidenceStatus => assert Lower("status");
      case EvidenceArtifacts => assert Lower("artifacts_present_total");
      case _ =>
    }
  }

  lemma GapLower(f: Family)
    requires f.EvidenceKnownGaps? || f.EvidenceSharedEvents? || f.EvidenceComparedFields?
    ensures Lower(f.Tail())
  {
    match f {
      case EvidenceKnownGaps => assert Lower("known_gaps_total");
      case EvidenceSharedEvents => assert Lower("journal_shared_events_total");
      case EvidenceComparedFields => assert Lower("compared_fields_total");
      case _ =>
    }
  }

  lemma TailLower(f: Family)
    ensures Lower(f.Tail())
  {
    match f {
      case RunInfo | RunDuration | KillSwitchState => RunLower(f);
      case RunCreated | RunStarted | RunCompleted => StampLower(f);
      case ReadinessState | ReadinessEnabled | ReadinessMissing | ReadinessProbePerformed => ReadinessLower(f);
      case ProbeState | ProbePerformed | ProbeLatency | ProbeHttpStatus => ProbeLower(f);
      case InputCandles | BarsProcessed | EngineDuration => BacktestLower(f);
      case StrategyRegistered | ActionTriggered => StrategyLower(f);
      case BarsSeen | OrdersSubmitted | Fills => TotalLower(f);
      case HeartbeatTotal | SyntheticDuration | JournalEventsTotal | JournalEventTotal => PaperLower(f);
      case ReconciliationStatus | ReconciliationChecks | ReconciliationTimestamp => CheckLower(f);
      case DrillExecuted | DrillLastPass | DrillLastOutcome => DrillLower(f);
      case EvidenceStatusTotal | EvidenceStatus | EvidenceArtifacts => EvidenceLower(f);
      case EvidenceKnownGaps | EvidenceSharedEvents | EvidenceComparedFields => GapLower(f);
    }
  }

  lemma FamilyNamed(f: Family)
    ensures IsMetricName(f.Text())
  {
    hide Area.Text, Family.Tail;
    AreaLower(f.Group());
    TailLower(f);
    var prefix := "tradingchassis_ops_lab_";
    assert Lower(prefix);
    assert f.Text()[0] == 't';
    assert Lower(f.Text());
  }

  lemma KeyNamedOne(k: Key)
    requires k.RunId? || k.Mode? || k.Engine? || k.Venue? || k.Instrument? || k.Status? || k.Dataset?
    ensures IsLabelName(k.Text())
  {
    match k {
      case RunId => assert Lower("run_id");
      case Mode => assert Lower("mode");
      case Engine => assert Lower("engine");
      case Venue => assert Lower("venue");
      case Instrument => assert Lower("instrument");
      case Status => assert Lower("status");
      case Dataset => assert Lower("dataset");
      case _ =>
    }
  }

  lemma KeyNamedTwo(k: Key)
    requires k.IsPlaceholder? || k.EngineExecuted? || k.State? || k.NetworkScope? || k.ErrorClass?
      || k.ScenarioName? || k.ScenarioVersion?
    ensures IsLabelName(k.Text())
  {
    match k {
      case IsPlaceholder => assert Lower("is_placeholder");
      case EngineExecuted => assert Lower("engine_executed");
      case State => assert Lower("state");
      case NetworkScope => assert Lower("network_scope");
      case ErrorClass => assert Lower("error_class");
      case ScenarioName => assert Lower("scenario_name");
      case ScenarioVersion => assert Lower("scenario_version");
      case _ =>
    }
  }

  lemma KeyNamedThree(k: Key)
    requires k.Event? || k.Severity? || k.DrillName? || k.ComparisonStatus? || k.Side? || k.Artifact?
      || k.Classification?
    ensures IsLabelName(k.Text())
  {
    match k {
      case Event => assert Lower("event");
      case Severity => assert Lower("severity");
      case DrillName => assert Lower("drill_name");
      case ComparisonStatus => assert Lower("comparison_status");
      case Side => assert Lower("side");
      case Artifact => assert Lower("artifact");
      case Classification => assert Lower("classification");
      case _ =>
    }
  }

  lemma KeyNamed(k: Key)
    ensures IsLabelName(k.Text())
  {
    match k {
      case RunId | Mode | Engine | Venue | Instrument | Status | Dataset => KeyNamedOne(k);
      case IsPlaceholder | EngineExecuted | State | NetworkScope
        | ErrorClass | ScenarioName | ScenarioVersion => KeyNamedTwo(k);
      case Event | Severity | DrillName | ComparisonStatus | Side | Artifact | Classification => KeyNamedThree(k);
    }
  }
}
