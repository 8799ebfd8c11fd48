/** The parts of a run's metrics, each of them tidy: families in rank order, series apart, labels in order
    and led by the run's id, and numeric values exactly where no count is a boolean. */
module RunSeries {
  import opened Decimals
  import opened MetricNames
  import opened MetricSeries
  import opened RunMetrics
  import Sorting
  import Text

  // ---------------------------------------------------------------- labels of a run

  /** Labels that start with the run id, in their fixed order. */
  predicate Labelled(labels: seq<(Key, string)>, runId: string) {
    labels != [] && labels[0] == (RunId, runId) && Ordered(labels)
  }

  lemma Extend(labels: seq<(Key, string)>, runId: string, k: Key, v: string)
    requires Labelled(labels, runId) && labels[|labels| - 1].0.Order() < k.Order()
    ensures Labelled(labels + [(k, v)], runId)
  {
  }

  predicate IsCore(core: seq<(Key, string)>, runId: string) {
    && |core| == 5 && core[0] == (RunId, runId)
    && core[1].0 == Mode && core[2].0 == Engine && core[3].0 == Venue && core[4].0 == Instrument
  }

  lemma CoreShape(a: Artifacts)
    ensures IsCore(CoreLabels(a), RunIdOf(a))
  {
  }

  lemma CoreWith(core: seq<(Key, string)>, runId: string, k: Key, v: string)
    requires IsCore(core, runId)
    requires k.Order() > Instrument.Order()
    ensures Labelled(core, runId) && Labelled(core + [(k, v)], runId)
  {
    Extend(core, runId, k, v);
  }

  lemma InfoLabelled(a: Artifacts)
    ensures Labelled(InfoLabels(a), RunIdOf(a))
  {
    hide BoolLabel, DatasetOf, OrElse;
    CoreShape(a);
    hide CoreLabels;
    var labels := InfoLabels(a);
    assert labels[5].0 == Status && labels[6].0 == Dataset && labels[7].0 == IsPlaceholder;
    assert labels[8].0 == EngineExecuted && |labels| == 9;
  }

  lemma ProbeLabelled(core: seq<(Key, string)>, runId: string, p: ProbeFile)
    requires IsCore(core, runId) && ProbeFault(p).None?
    ensures Labelled(ProbeLabels(core, p), runId)
  {
    CoreWith(core, runId, State, p.state.value);
    var labels := core + [(State, p.state.value)];
    Extend(labels, runId, NetworkScope, p.scope.value);
    assert labels + [(NetworkScope, p.scope.value)] == core + [(State, p.state.value), (NetworkScope, p.scope.value)];
    if p.errorClass.Present? {
      Extend(labels + [(NetworkScope, p.scope.value)], runId, ErrorClass, p.errorClass.value);
    }
  }

  // ---------------------------------------------------------------- tidy sections

  predicate OfRun(ms: seq<Metric>, runId: string) {
    forall i :: 0 <= i < |ms| ==> Labelled(ms[i].labels, runId)
  }

  /** Families in order, no series twice, the run's label on every metric, and `plain` telling whether
      all values are numbers. */
  predicate Tidy(ms: seq<Metric>, lo: nat, hi: nat, runId: string, plain: bool) {
    InOrder(ms, lo, hi) && AllApart(ms) && OfRun(ms, runId) && plain == Numeric(ms)
  }

  lemma Concat(a: seq<Metric>, b: seq<Metric>, runId: string)
    ensures OfRun(a, runId) && OfRun(b, runId) ==> OfRun(a + b, runId)
    ensures Numeric(a + b) <==> Numeric(a) && Numeric(b)
  {
    hide Labelled, IsBool;
    var ms := a + b;
    assert forall i :: 0 <= i < |a| ==> ms[i] == a[i];
    assert forall i :: 0 <= i < |b| ==> ms[|a| + i] == b[i];
    assert Numeric(ms) ==> Numeric(b) by {
      forall i | Numeric(ms) && 0 <= i < |b| ensures !IsBool(b[i].value) {
        assert !IsBool(ms[|a| + i].value);
      }
    }
  }

  lemma TidyConcat(a: seq<Metric>, b: seq<Metric>, lo: nat, mid: nat, hi: nat, runId: string, p: bool, q: bool)
    requires Tidy(a, lo, mid, runId, p) && Tidy(b, mid, hi, runId, q) && lo <= mid <= hi
    ensures Tidy(a + b, lo, hi, runId, p && q)
  {
    hide InOrder, AllApart, OfRun, Numeric;
    InOrderConcat(a, b, lo, mid, hi);
    Concat(a, b, runId);
  }

  lemma TidyNone(lo: nat, hi: nat, runId: string)
    ensures Tidy([], lo, hi, runId, true)
  {
  }

  /** A boolean where a count is expected. */
  predicate IsTruth(w: Option<Whole>) {
    w.Some? && w.value.BoolCount?
  }

  predicate Plain(value: Option<Value>) {
    value.None? || !IsBool(value.value)
  }

  lemma TidyMaybe(family: Family, labels: seq<(Key, string)>, value: Option<Value>, runId: string)
    requires Labelled(labels, runId)
    ensures Tidy(Maybe(family, labels, value), family.Rank(), family.Rank() + 1, runId, Plain(value))
  {
    hide Labelled;
    var ms := Maybe(family, labels, value);
    assert value.Some? ==> ms[0] == Metric(family, labels, value.value);
  }

  /** One more gauge after a tidy list. */
  lemma Add(ms: seq<Metric>, lo: nat, runId: string, plain: bool,
            family: Family, labels: seq<(Key, string)>, value: Option<Value>)
    returns (sum: seq<Metric>)
    requires lo <= family.Rank() && Tidy(ms, lo, family.Rank(), runId, plain) && Labelled(labels, runId)
    ensures sum == ms + Maybe(family, labels, value)
    ensures Tidy(sum, lo, family.Rank() + 1, runId, plain && Plain(value))
  {
    hide Tidy, Labelled, Maybe, Plain, Family.Rank;
    TidyMaybe(family, labels, value, runId);
    TidyConcat(ms, Maybe(family, labels, value), lo, family.Rank(), family.Rank() + 1, runId, plain, Plain(value));
    sum := ms + Maybe(family, labels, value);
  }

  lemma TidyReadiness(labels: seq<(Key, string)>, r: ReadinessFile, runId: string)
    requires Labelled(labels, runId) && ReadinessFault(r).None?
    ensures Tidy(ReadinessGauges(labels, r), 1, 5, runId, !IsTruth(r.missing))
  {
    hide Maybe, Tidy, Labelled, ReadinessValue;
    var ms := Maybe(ReadinessState, labels, Number(ReadinessValue(r.state.value)));
    TidyMaybe(ReadinessState, labels, Number(ReadinessValue(r.state.value)), runId);
    ms := Add(ms, 1, runId, true, ReadinessEnabled, labels, Flag(r.enabled));
    ms := Add(ms, 1, runId, true, ReadinessMissing, labels, Counted(r.missing));
    ms := Add(ms, 1, runId, !IsTruth(r.missing), ReadinessProbePerformed, labels, Flag(r.probePerformed));
  }

  predicate ProbePlain(p: ProbeFile) {
    p.httpStatus.Present? ==> p.httpStatus.value.IntCount?
  }

  lemma TidyProbe(labels: seq<(Key, string)>, p: ProbeFile, runId: string)
    requires Labelled(labels, runId) && ProbeFault(p).None?
    ensures Tidy(ProbeGauges(labels, p), 5, 9, runId, ProbePlain(p))
  {
    hide Maybe, Tidy, Labelled, ProbeValue;
    var ms := Maybe(ProbeState, labels, Number(ProbeValue(p.state.value)));
    TidyMaybe(ProbeState, labels, Number(ProbeValue(p.state.value)), runId);
    ms := Add(ms, 5, runId, true, ProbePerformed, labels, Flag(p.probePerformed));
    var latency := if p.latencySeconds.Present? then Measured(Some(p.latencySeconds.value)) else None;
    ms := Add(ms, 5, runId, true, ProbeLatency, labels, latency);
    var status := if p.httpStatus.Present? then Counted(Some(p.httpStatus.value)) else None;
    ms := Add(ms, 5, runId, true, ProbeHttpStatus, labels, status);
  }

  lemma TidyKillSwitch(runId: string, state: Option<string>)
    ensures Tidy(KillSwitchMetrics(runId, state), 9, 10, runId, true)
  {
    hide Maybe, Tidy, KillSwitchText, KillSwitchValue;
    if state.None? {
      TidyNone(9, 10, runId);
    } else {
      var text := KillSwitchText(state.value);
      assert Labelled([(RunId, runId), (State, text)], runId);
      TidyMaybe(KillSwitchState, [(RunId, runId), (State, text)], Number(KillSwitchValue(text)), runId);
    }
  }

  lemma TidyTimes(core: seq<(Key, string)>, m: Metadata, stamper: Stamper, runId: string)
    requires Labelled(core, runId)
    ensures Tidy(TimeMetrics(core, m, stamper), 10, 14, runId, true)
  {
    hide Maybe, Tidy, Labelled, Duration;
    var ms := Maybe(RunCreated, core, Stamped(m.created, stamper));
    TidyMaybe(RunCreated, core, Stamped(m.created, stamper), runId);
    ms := Add(ms, 10, runId, true, RunStarted, core, Stamped(m.started, stamper));
    ms := Add(ms, 10, runId, true, RunCompleted, core, Stamped(m.completed, stamper));
    ms := Add(ms, 10, runId, true, RunDuration, core, Stamped(Duration(m), stamper));
  }

  predicate BacktestPlain(f: Figures) {
    !IsTruth(f.candles) && !IsTruth(f.bars)
  }

  lemma TidyBacktest(core: seq<(Key, string)>, f: Figures, runId: string)
    requires Labelled(core, runId)
    ensures Tidy(BacktestMetrics(core, f), 14, 17, runId, BacktestPlain(f))
  {
    hide Maybe, Tidy, Labelled;
    var ms := Maybe(InputCandles, core, Counted(f.candles));
    TidyMaybe(InputCandles, core, Counted(f.candles), runId);
    ms := Add(ms, 14, runId, !IsTruth(f.candles), BarsProcessed, core, Counted(f.bars));
    ms := Add(ms, 14, runId, BacktestPlain(f), EngineDuration, core, Measured(f.engineSeconds));
  }

  /** The counts of a scenario matter only if it is named. */
  predicate ScenarioPlain(s: Scenario) {
    Usable(s.name) ==> !IsTruth(s.barsSeen) && !IsTruth(s.orders) && !IsTruth(s.fills)
  }

  lemma TidyScenario(runId: string, s: Scenario)
    ensures Tidy(ScenarioMetrics(runId, s), 17, 22, runId, ScenarioPlain(s))
  {
    hide Tidy, Text.NonBlank, ScenarioGauges;
    if Usable(s.name) {
      assert Labelled(ScenarioLabels(runId, s), runId);
      TidyScenarioGauges(ScenarioLabels(runId, s), s, runId);
    } else {
      TidyNone(17, 22, runId);
    }
  }

  lemma TidyScenarioGauges(labels: seq<(Key, string)>, s: Scenario, runId: string)
    requires Labelled(labels, runId)
    ensures Tidy(ScenarioGauges(labels, s), 17, 22, runId,
      !IsTruth(s.barsSeen) && !IsTruth(s.orders) && !IsTruth(s.fills))
  {
    hide Maybe, Tidy, Labelled;
    var ms := Maybe(StrategyRegistered, labels, Flag(s.registered));
    TidyMaybe(StrategyRegistered, labels, Flag(s.registered), runId);
    ms := Add(ms, 17, runId, true, ActionTriggered, labels, Flag(s.triggered));
    ms := Add(ms, 17, runId, true, BarsSeen, labels, Counted(s.barsSeen));
    ms := Add(ms, 17, runId, !IsTruth(s.barsSeen), OrdersSubmitted, labels, Counted(s.orders));
    ms := Add(ms, 17, runId, !IsTruth(s.barsSeen) && !IsTruth(s.orders), Fills, labels, Counted(s.fills));
  }

  lemma TidyPaper(core: seq<(Key, string)>, f: Figures, runId: string)
    requires Labelled(core, runId)
    ensures Tidy(PaperMetrics(core, f), 22, 24, runId, !IsTruth(f.heartbeats))
  {
    hide Maybe, Tidy, Labelled;
    var ms := Maybe(HeartbeatTotal, core, Counted(f.heartbeats));
    TidyMaybe(HeartbeatTotal, core, Counted(f.heartbeats), runId);
    ms := Add(ms, 22, runId, !IsTruth(f.heartbeats), SyntheticDuration, core, Measured(f.syntheticSeconds));
  }

  /** Two metrics that agree on all labels but the last. */
  lemma LastLabelApart(m: Metric, n: Metric, core: seq<(Key, string)>, k: Key, v: string, w: string)
    requires m.labels == core + [(k, v)] && n.labels == core + [(k, w)] && v != w
    ensures Apart(m, n)
  {
    assert m.labels[|core|] == (k, v) && n.labels[|core|] == (k, w);
  }

  lemma TidyEvents(core: seq<(Key, string)>, names: seq<string>, counts: multiset<string>, runId: string)
    requires IsCore(core, runId)
    requires forall i, j :: 0 <= i < j < |names| ==> names[i] != names[j]
    ensures Tidy(EventMetrics(core, names, counts), 25, 26, runId, true)
  {
    hide Apart, Labelled;
    var ms := EventMetrics(core, names, counts);
    forall i | 0 <= i < |ms| ensures Labelled(ms[i].labels, runId) { CoreWith(core, runId, Event, names[i]); }
    forall i, j | 0 <= i < j < |ms| ensures Apart(ms[i], ms[j]) {
      LastLabelApart(ms[i], ms[j], core, Event, names[i], names[j]);
    }
  }

  lemma TidyJournal(core: seq<(Key, string)>, journal: seq<Option<string>>, runId: string)
    requires IsCore(core, runId)
    ensures Tidy(JournalMetrics(core, journal), 24, 26, runId, true)
  {
    hide Maybe, Tidy, EventMetrics, Labelled, Names, EventNames, Sorting.SortedStrings, IsCore;
    var counts := multiset(EventNames(journal));
    var names := Sorting.SortedStrings(Names(counts));
    Sorting.SortedStringsShape(Names(counts));
    CoreWith(core, runId, Event, "");
    TidyMaybe(JournalEventsTotal, core, Number(|journal|), runId);
    TidyEvents(core, names, counts, runId);
    TidyConcat(Maybe(JournalEventsTotal, core, Number(|journal|)), EventMetrics(core, names, counts),
      24, 25, 26, runId, true, true);
  }

  lemma {:induction false} TalliesPresent(s: Summary, from: nat, k: nat)
    requires from <= k < 4 && SummaryFault(s, from).None?
    ensures Tally(s, k).Some?
    decreases k - from
  {
    if from < k {
      TalliesPresent(s, from + 1, k);
    }
  }

  predicate SummaryPlain(s: Summary, upTo: nat)
    requires upTo <= 4
  {
    forall k :: 0 <= k < upTo ==> !IsTruth(Tally(s, k))
  }

  lemma {:induction false} TidyChecks(core: seq<(Key, string)>, s: Summary, upTo: nat, runId: string)
    requires IsCore(core, runId) && upTo <= 4 && forall k :: 0 <= k < 4 ==> Tally(s, k).Some?
    ensures var ms := CheckMetrics(core, s, upTo);
      && |ms| == upTo
      && (forall i :: 0 <= i < upTo ==>
           ms[i] == Metric(ReconciliationChecks, core + [(Severity, SEVERITIES[i])], Integral(Tally(s, i).value)))
  {
    if upTo > 0 {
      TidyChecks(core, s, upTo - 1, runId);
    }
  }

  lemma SeveritiesDiffer(i: nat, j: nat)
    requires i < j < 4
    ensures SEVERITIES[i] != SEVERITIES[j]
  {
    assert |SEVERITIES[0]| == 2 && |SEVERITIES[1]| == 7 && |SEVERITIES[2]| == 8;
    assert SEVERITIES[1][0] == 'w' && SEVERITIES[3][0] == 'u';
  }

  lemma ChecksTidy(core: seq<(Key, string)>, s: Summary, runId: string)
    requires IsCore(core, runId) && SummaryFault(s, 0).None?
    ensures Tidy(CheckMetrics(core, s, 4), 27, 28, runId, SummaryPlain(s, 4))
  {
    hide Apart, Labelled, CheckMetrics, Tally, IsCore, SummaryFault;
    forall k: nat | k < 4 ensures Tally(s, k).Some? { TalliesPresent(s, 0, k); }
    TidyChecks(core, s, 4, runId);
    var ms := CheckMetrics(core, s, 4);
    forall i | 0 <= i < 4 ensures Labelled(ms[i].labels, runId) { CoreWith(core, runId, Severity, SEVERITIES[i]); }
    forall i, j | 0 <= i < j < 4 ensures Apart(ms[i], ms[j]) {
      SeveritiesDiffer(i, j);
      LastLabelApart(ms[i], ms[j], core, Severity, SEVERITIES[i], SEVERITIES[j]);
    }
  }

  lemma TidyReconciliation(core: seq<(Key, string)>, r: ReconciliationFile, stamper: Stamper, runId: string)
    requires IsCore(core, runId) && ReconciliationFault(r).None?
    ensures Tidy(ReconciliationMetrics(core, r, stamper), 26, 29, runId, SummaryPlain(r.summary.value, 4))
  {
    hide Maybe, Tidy, Labelled, CheckMetrics, SummaryFault, SummaryPlain, IsCore, Stamped;
    var head := Maybe(ReconciliationStatus, core + [(Status, r.status)], Number(1));
    var plain := SummaryPlain(r.summary.value, 4);
    CoreWith(core, runId, Status, r.status);
    TidyMaybe(ReconciliationStatus, core + [(Status, r.status)], Number(1), runId);
    ChecksTidy(core, r.summary.value, runId);
    TidyConcat(head, CheckMetrics(core, r.summary.value, 4), 26, 27, 28, runId, true, plain);
    assert Plain(Stamped(r.stamp, stamper)) by { StampedPlain(r.stamp, stamper); }
    var ms := Add(head + CheckMetrics(core, r.summary.value, 4), 26, runId, plain,
      ReconciliationTimestamp, core, Stamped(r.stamp, stamper));
  }

  lemma StampedPlain(at: Option<int>, stamper: Stamper)
    ensures Plain(Stamped(at, stamper))
  {
  }

  predicate ReadinessPlain(a: Artifacts) {
    a.readiness.Some? ==> !IsTruth(a.readiness.value.missing)
  }

  predicate ConnectivityPlain(a: Artifacts) {
    ReadinessPlain(a) && (a.probe.Some? ==> ProbePlain(a.probe.value))
  }

  lemma TidyConnectivity(a: Artifacts)
    requires StateFault(a).None?
    ensures Tidy(ConnectivityMetrics(a), 1, 9, RunIdOf(a), ConnectivityPlain(a))
  {
    hide Tidy, ReadinessGauges, ProbeGauges, Labelled, IsCore, CoreLabels, RunIdOf, ProbePlain, ProbeLabels;
    hide Text.NonBlank;
    var core, runId := CoreLabels(a), RunIdOf(a);
    CoreShape(a);
    TidyNone(1, 5, runId);
    TidyNone(5, 9, runId);
    if a.readiness.Some? {
      CoreWith(core, runId, State, a.readiness.value.state.value);
      TidyReadiness(core + [(State, a.readiness.value.state.value)], a.readiness.value, runId);
    }
    if a.probe.Some? {
      ProbeLabelled(core, runId, a.probe.value);
      TidyProbe(ProbeLabels(core, a.probe.value), a.probe.value, runId);
    }
    var first := if a.readiness.Some? then ReadinessMetrics(core, a.readiness.value) else [];
    var second := if a.probe.Some? then ProbeMetrics(core, a.probe.value) else [];
    TidyConcat(first, second, 1, 5, 9, runId, ReadinessPlain(a), a.probe.Some? ==> ProbePlain(a.probe.value));
  }

  predicate ResultsPlain(a: Artifacts) {
    BacktestPlain(a.figures) && ScenarioPlain(a.figures.scenario) && !IsTruth(a.figures.heartbeats)
  }

  lemma TidyResults(a: Artifacts, stamper: Stamper)
    ensures Tidy(ResultMetrics(a, stamper), 9, 24, RunIdOf(a), ResultsPlain(a))
  {
    hide Tidy, Labelled, IsCore, CoreLabels, RunIdOf, BacktestPlain, ScenarioPlain, IsTruth;
    hide KillSwitchMetrics, TimeMetrics, BacktestMetrics, ScenarioMetrics, PaperMetrics;
    var core, runId, f := CoreLabels(a), RunIdOf(a), a.figures;
    CoreShape(a);
    CoreWith(core, runId, Event, "");
    TidyKillSwitch(runId, a.metadata.killSwitch);
    TidyTimes(core, a.metadata, stamper, runId);
    TidyBacktest(core, f, runId);
    TidyScenario(runId, f.scenario);
    TidyPaper(core, f, runId);
    var ms := KillSwitchMetrics(runId, a.metadata.killSwitch);
    TidyConcat(ms, TimeMetrics(core, a.metadata, stamper), 9, 10, 14, runId, true, true);
    ms := ms + TimeMetrics(core, a.metadata, stamper);
    TidyConcat(ms, BacktestMetrics(core, f), 9, 14, 17, runId, true, BacktestPlain(f));
    ms := ms + BacktestMetrics(core, f);
    TidyConcat(ms, ScenarioMetrics(runId, f.scenario), 9, 17, 22, runId, BacktestPlain(f), ScenarioPlain(f.scenario));
    ms := ms + ScenarioMetrics(runId, f.scenario);
    TidyConcat(ms, PaperMetrics(core, f), 9, 22, 24, runId,
      BacktestPlain(f) && ScenarioPlain(f.scenario), !IsTruth(f.heartbeats));
  }

  predicate RecordsPlain(a: Artifacts)
    requires RecordFault(a).None?
  {
    a.reconciliation.Some? ==> SummaryPlain(a.reconciliation.value.summary.value, 4)
  }

  lemma TidyRecords(a: Artifacts, stamper: Stamper)
    requires RecordFault(a).None?
    ensures Tidy(RecordMetrics(a, stamper), 24, 29, RunIdOf(a), RecordsPlain(a))
  {
    hide Tidy, IsCore, CoreLabels, RunIdOf, JournalMetrics, ReconciliationMetrics, SummaryFault, SummaryPlain;
    var core, runId := CoreLabels(a), RunIdOf(a);
    CoreShape(a);
    TidyNone(24, 26, runId);
    TidyNone(26, 29, runId);
    if a.includeJournal {
      TidyJournal(core, a.journal, runId);
    }
    if a.reconciliation.Some? {
      TidyReconciliation(core, a.reconciliation.value, stamper, runId);
    }
    var first := if a.includeJournal then JournalMetrics(core, a.journal) else [];
    var second := if a.reconciliation.Some? then ReconciliationMetrics(core, a.reconciliation.value, stamper) else [];
    TidyConcat(first, second, 24, 26, 29, runId, true, RecordsPlain(a));
  }

  /** No count that a run emits is a boolean. */
  predicate PlainCounts(a: Artifacts)
    requires RunFault(a).None?
  {
    ConnectivityPlain(a) && ResultsPlain(a) && RecordsPlain(a)
  }

  lemma TidyFront(a: Artifacts, stamper: Stamper)
    requires RunFault(a).None?
    ensures Tidy(FrontMetrics(a, stamper), 0, 29, RunIdOf(a), PlainCounts(a))
  {
    hide Tidy, Labelled, InfoLabels, RunIdOf, ConnectivityMetrics, ResultMetrics, RecordMetrics, Maybe;
    hide StateFault, RecordFault, ConnectivityPlain, ResultsPlain, RecordsPlain;
    var runId, info := RunIdOf(a), Maybe(RunInfo, InfoLabels(a), Number(1));
    InfoLabelled(a);
    TidyMaybe(RunInfo, InfoLabels(a), Number(1), runId);
    TidyConnectivity(a);
    TidyResults(a, stamper);
    TidyRecords(a, stamper);
    TidyConcat(info, ConnectivityMetrics(a), 0, 1, 9, runId, true, ConnectivityPlain(a));
    TidyConcat(info + ConnectivityMetrics(a), ResultMetrics(a, stamper), 0, 9, 24, runId,
      ConnectivityPlain(a), ResultsPlain(a));
    TidyConcat(info + ConnectivityMetrics(a) + ResultMetrics(a, stamper), RecordMetrics(a, stamper), 0, 24, 29, runId,
      ConnectivityPlain(a) && ResultsPlain(a), RecordsPlain(a));
  }
}
