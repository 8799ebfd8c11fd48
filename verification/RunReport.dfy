/** What a run's metrics say, from the fields of its artifacts: which line is written, with which labels and which
    value. Values and encodings are spelled out here and not taken from the emitter's own helpers. */
module RunReport {
  import opened Decimals
  import opened MetricNames
  import opened MetricSeries
  import opened RunMetrics
  import RunEmitter
  import Sorting
  import Text

  // ---------------------------------------------------------------- values

  predicate IsInt(m: Metric, n: int) {
    m.value == Integral(IntCount(n))
  }

  /** True is 1 and false is 0. */
  predicate IsFlag(m: Metric, b: bool) {
    (b ==> IsInt(m, 1)) && (!b ==> IsInt(m, 0))
  }

  /** A count is written as it is; JSON's true and false pass for counts. */
  predicate IsCount(m: Metric, w: Whole) {
    m.value == Integral(w)
  }

  predicate IsSeconds(m: Metric, t: NumberText) {
    m.value == Float(t)
  }

  /** The code of a text in a table, -1 if it is not there. */
  predicate IsCode(m: Metric, table: seq<(string, int)>, s: string) {
    || (exists i :: 0 <= i < |table| && table[i].0 == s && IsInt(m, table[i].1))
    || (IsInt(m, -1) && forall i :: 0 <= i < |table| ==> table[i].0 != s)
  }

  const SWITCH_CODES: seq<(string, int)> := [("absent", 0), ("cleared", 1), ("active", 2)]
  const READINESS_CODES: seq<(string, int)> :=
    [("disabled", 0), ("configured", 1), ("missing_credentials", 2), ("invalid_config", 3)]
  const PROBE_CODES: seq<(string, int)> :=
    [("probe_ok", 1), ("probe_http_error", 2), ("probe_timeout", 3), ("probe_unreachable", 4)]
  const OUTCOME_CODES: seq<(string, int)> :=
    [("expected_warning", 1), ("expected_mismatch", 2), ("simulated_recovery_ok", 3)]

  // ---------------------------------------------------------------- labels

  /** A text field with what stands for it when it is missing. */
  predicate Reads(v: string, field: Option<string>, fallback: string) {
    if field.Some? then v == field.value else v == fallback
  }

  predicate RunIdSaid(a: Artifacts, v: string) {
    Reads(v, a.metadata.runId, a.directory)
  }

  /** Two places to look for a field, then "unknown". */
  predicate ReadsEither(v: string, first: Option<string>, second: Option<string>) {
    if first.Some? then v == first.value else Reads(v, second, "unknown")
  }

  /** The five labels every core metric begins with. */
  predicate CoreSaid(a: Artifacts, l: seq<(Key, string)>) {
    && |l| >= 5 && l[0].0 == RunId && l[1].0 == Mode && l[2].0 == Engine && l[3].0 == Venue && l[4].0 == Instrument
    && RunIdSaid(a, l[0].1)
    && ReadsEither(l[1].1, a.metadata.mode, a.figures.mode) && ReadsEither(l[2].1, a.metadata.engine, a.figures.engine)
    && Reads(l[3].1, a.metadata.venue, "unknown") && Reads(l[4].1, a.metadata.instrument, "unknown")
  }

  predicate CoreOnly(a: Artifacts, m: Metric) {
    |m.labels| == 5 && CoreSaid(a, m.labels)
  }

  predicate CoreAnd(a: Artifacts, m: Metric, k: Key, v: string) {
    |m.labels| == 6 && CoreSaid(a, m.labels) && m.labels[5] == (k, v)
  }

  predicate InfoSaid(a: Artifacts, l: seq<(Key, string)>) {
    && |l| == 9 && CoreSaid(a, l)
    && l[5].0 == Status && ReadsEither(l[5].1, a.metadata.status, a.figures.status)
    && l[6].0 == Dataset
    && l[6].1 == (if a.figures.dataset != "" then a.figures.dataset
                  else if a.metadata.dataset != "" then a.metadata.dataset else "unknown")
    && l[7] == (IsPlaceholder, if a.figures.isPlaceholder then "true" else "false")
    && l[8] == (EngineExecuted, if a.figures.engineExecuted then "true" else "false")
  }

  // ---------------------------------------------------------------- lines

  predicate InfoLine(a: Artifacts, m: Metric) {
    m.family == RunInfo && InfoSaid(a, m.labels) && IsInt(m, 1)
  }

  predicate ReadinessLine(a: Artifacts, m: Metric) {
    && a.readiness.Some?
    && var r := a.readiness.value;
       && r.state.Some? && CoreAnd(a, m, State, r.state.value)
       && (|| (m.family == ReadinessState && IsCode(m, READINESS_CODES, r.state.value))
           || (m.family == ReadinessEnabled && r.enabled.Some? && IsFlag(m, r.enabled.value))
           || (m.family == ReadinessMissing && r.missing.Some? && IsCount(m, r.missing.value))
           || (m.family == ReadinessProbePerformed && r.probePerformed.Some? && IsFlag(m, r.probePerformed.value)))
  }

  predicate ProbeSaid(a: Artifacts, p: ProbeFile, l: seq<(Key, string)>) {
    && |l| == (if p.errorClass.Present? then 8 else 7) && CoreSaid(a, l)
    && p.state.Some? && l[5] == (State, p.state.value) && p.scope.Some? && l[6] == (NetworkScope, p.scope.value)
    && (p.errorClass.Present? ==> l[7] == (ErrorClass, p.errorClass.value))
  }

  predicate ProbeLine(a: Artifacts, m: Metric) {
    && a.probe.Some?
    && var p := a.probe.value;
       && ProbeSaid(a, p, m.labels)
       && (|| (m.family == ProbeState && IsCode(m, PROBE_CODES, p.state.value))
           || (m.family == ProbePerformed && p.probePerformed.Some? && IsFlag(m, p.probePerformed.value))
           || (m.family == ProbeLatency && p.latencySeconds.Present? && IsSeconds(m, p.latencySeconds.value))
           || (m.family == ProbeHttpStatus && p.httpStatus.Present? && IsCount(m, p.httpStatus.value)))
  }

  /** The state is shown stripped, and as "unknown" if nothing is left. */
  predicate SwitchLine(a: Artifacts, m: Metric) {
    && m.family == KillSwitchState && a.metadata.killSwitch.Some? && |m.labels| == 2
    && m.labels[0].0 == RunId && RunIdSaid(a, m.labels[0].1) && m.labels[1].0 == State
    && m.labels[1].1 == (if Text.NonBlank(a.metadata.killSwitch.value) then Text.Strip(a.metadata.killSwitch.value)
                         else "unknown")
    && IsCode(m, SWITCH_CODES, m.labels[1].1)
  }

  predicate IsStamp(m: Metric, at: Option<int>, stamper: Stamper) {
    at.Some? && IsSeconds(m, stamper(at.value))
  }

  /** The time between two moments, none if the second comes first. */
  ghost predicate IsDuration(m: Metric, started: int, completed: int, stamper: Stamper) {
    exists d: nat ::
      IsSeconds(m, stamper(d)) && (if completed >= started then started + d == completed else d == 0)
  }

  ghost predicate TimeLine(a: Artifacts, m: Metric, stamper: Stamper) {
    && CoreOnly(a, m)
    && (|| (m.family == RunCreated && IsStamp(m, a.metadata.created, stamper))
        || (m.family == RunStarted && IsStamp(m, a.metadata.started, stamper))
        || (m.family == RunCompleted && IsStamp(m, a.metadata.completed, stamper))
        || (m.family == RunDuration && a.metadata.started.Some? && a.metadata.completed.Some?
            && IsDuration(m, a.metadata.started.value, a.metadata.completed.value, stamper)))
  }

  predicate BacktestLine(a: Artifacts, m: Metric) {
    && CoreOnly(a, m)
    && (|| (m.family == InputCandles && a.figures.candles.Some? && IsCount(m, a.figures.candles.value))
        || (m.family == BarsProcessed && a.figures.bars.Some? && IsCount(m, a.figures.bars.value))
        || (m.family == EngineDuration && a.figures.engineSeconds.Some? && IsSeconds(m, a.figures.engineSeconds.value)))
  }

  predicate ScenarioSaid(a: Artifacts, l: seq<(Key, string)>) {
    var s := a.figures.scenario;
    && s.name.Some? && Text.NonBlank(s.name.value)
    && |l| == (if s.version.Some? && Text.NonBlank(s.version.value) then 3 else 2)
    && l[0].0 == RunId && RunIdSaid(a, l[0].1) && l[1] == (ScenarioName, s.name.value)
    && (|l| == 3 ==> l[2] == (ScenarioVersion, s.version.value))
  }

  predicate ScenarioLine(a: Artifacts, m: Metric) {
    var s := a.figures.scenario;
    && ScenarioSaid(a, m.labels)
    && (|| (m.family == StrategyRegistered && s.registered.Some? && IsFlag(m, s.registered.value))
        || (m.family == ActionTriggered && s.triggered.Some? && IsFlag(m, s.triggered.value))
        || (m.family == BarsSeen && s.barsSeen.Some? && IsCount(m, s.barsSeen.value))
        || (m.family == OrdersSubmitted && s.orders.Some? && IsCount(m, s.orders.value))
        || (m.family == Fills && s.fills.Some? && IsCount(m, s.fills.value)))
  }

  predicate PaperLine(a: Artifacts, m: Metric) {
    && CoreOnly(a, m)
    && (|| (m.family == HeartbeatTotal && a.figures.heartbeats.Some? && IsCount(m, a.figures.heartbeats.value))
        || (m.family == SyntheticDuration && a.figures.syntheticSeconds.Some?
            && IsSeconds(m, a.figures.syntheticSeconds.value)))
  }

  /** The entries of the journal that carry an event name. */
  function Carrying(journal: seq<Option<string>>, event: string): set<int> {
    set i | 0 <= i < |journal| && journal[i] == Some(event)
  }

  /** One line for the number of entries, and one for each event name that is not blank. */
  predicate JournalLine(a: Artifacts, m: Metric) {
    && a.includeJournal
    && (|| (m.family == JournalEventsTotal && CoreOnly(a, m) && IsInt(m, |a.journal|))
        || (m.family == JournalEventTotal && |m.labels| == 6 && CoreAnd(a, m, Event, m.labels[5].1)
            && Text.NonBlank(m.labels[5].1) && Carrying(a.journal, m.labels[5].1) != {}
            && IsInt(m, |Carrying(a.journal, m.labels[5].1)|)))
  }

  predicate IsTally(a: Artifacts, m: Metric, severity: string, tally: Option<Whole>) {
    CoreAnd(a, m, Severity, severity) && tally.Some? && IsCount(m, tally.value)
  }

  predicate ReconciliationLine(a: Artifacts, m: Metric, stamper: Stamper) {
    && a.reconciliation.Some?
    && var r := a.reconciliation.value;
       || (m.family == ReconciliationStatus && CoreAnd(a, m, Status, r.status) && IsInt(m, 1))
       || (m.family == ReconciliationChecks && r.summary.Some?
           && var s := r.summary.value;
              || IsTally(a, m, "ok", s.ok) || IsTally(a, m, "warning", s.warning)
              || IsTally(a, m, "mismatch", s.mismatch) || IsTally(a, m, "unknown", s.unknown))
       || (m.family == ReconciliationTimestamp && CoreOnly(a, m) && IsStamp(m, r.stamp, stamper))
  }

  predicate OneDrillLine(a: Artifacts, d: DrillFile, m: Metric) {
    && d.name.Some? && Text.NonBlank(d.name.value) && |m.labels| == 2
    && m.labels[0].0 == RunId && RunIdSaid(a, m.labels[0].1) && m.labels[1] == (DrillName, Text.Strip(d.name.value))
    && (|| (m.family == DrillExecuted && IsInt(m, 1))
        || (m.family == DrillLastPass && (if d.pass.Some? then IsFlag(m, d.pass.value) else IsInt(m, -1)))
        || (m.family == DrillLastOutcome &&
            (if d.outcome.Some? && Text.NonBlank(d.outcome.value)
             then IsCode(m, OUTCOME_CODES, Text.Strip(d.outcome.value)) else IsInt(m, -1))))
  }

  predicate DrillLine(a: Artifacts, m: Metric) {
    exists i :: 0 <= i < |a.drills| && OneDrillLine(a, a.drills[i], m)
  }

  /** A line of the run, said from its artifacts. */
  ghost predicate Says(a: Artifacts, m: Metric, stamper: Stamper) {
    || InfoLine(a, m) || ReadinessLine(a, m) || ProbeLine(a, m) || SwitchLine(a, m) || TimeLine(a, m, stamper)
    || BacktestLine(a, m) || ScenarioLine(a, m) || PaperLine(a, m) || JournalLine(a, m)
    || ReconciliationLine(a, m, stamper) || DrillLine(a, m)
  }

  // ---------------------------------------------------------------- labels are the emitter's

  lemma CoreExactly(a: Artifacts, l: seq<(Key, string)>)
    requires |l| >= 5
    ensures l[..5] == CoreLabels(a) <==> CoreSaid(a, l)
  {
    FiveSame(l[..5], CoreLabels(a));
  }

  lemma FiveSame(x: seq<(Key, string)>, y: seq<(Key, string)>)
    requires |x| == 5 && |y| == 5
    ensures x == y <==>
      && x[0].0 == y[0].0 && x[1].0 == y[1].0 && x[2].0 == y[2].0 && x[3].0 == y[3].0 && x[4].0 == y[4].0
      && x[0].1 == y[0].1 && x[1].1 == y[1].1 && x[2].1 == y[2].1 && x[3].1 == y[3].1 && x[4].1 == y[4].1
  {
    forall i | 0 <= i < 5 && x[i].0 == y[i].0 && x[i].1 == y[i].1 ensures x[i] == y[i] {
      assert x[i] == (x[i].0, x[i].1) && y[i] == (y[i].0, y[i].1);
    }
  }

  lemma CoreAlone(a: Artifacts, m: Metric)
    ensures m.labels == CoreLabels(a) <==> CoreOnly(a, m)
  {
    hide CoreSaid;
    assert |CoreLabels(a)| == 5;
    if |m.labels| == 5 {
      assert m.labels[..5] == m.labels;
      CoreExactly(a, m.labels);
    }
  }

  lemma CoreMore(a: Artifacts, m: Metric, k: Key, v: string)
    ensures m.labels == CoreLabels(a) + [(k, v)] <==> CoreAnd(a, m, k, v)
  {
    hide CoreSaid;
    assert |CoreLabels(a)| == 5;
    hide CoreLabels;
    if |m.labels| == 6 {
      assert m.labels == m.labels[..5] + [m.labels[5]];
      CoreExactly(a, m.labels);
    }
  }

  lemma InfoExactly(a: Artifacts, l: seq<(Key, string)>)
    ensures l == InfoLabels(a) <==> InfoSaid(a, l)
  {
    hide CoreSaid, CoreLabels;
    assert |CoreLabels(a)| == 5 by { FiveLabels(a); }
    var info := InfoLabels(a);
    assert |info| == 9 && info[..5] == CoreLabels(a);
    if |l| == 9 {
      CoreExactly(a, l);
      assert l == l[..5] + [l[5], l[6], l[7], l[8]];
      assert l[5] == (l[5].0, l[5].1) && l[6] == (l[6].0, l[6].1);
      assert info[5] == l[5] && info[6] == l[6] && info[7] == l[7] && info[8] == l[8] && info[..5] == l[..5] ==>
        l == info;
    }
  }

  lemma FiveLabels(a: Artifacts)
    ensures |CoreLabels(a)| == 5
  {
  }

  // ---------------------------------------------------------------- values are the emitter's

  lemma MaybeLine(f: Family, l: seq<(Key, string)>, v: Option<Value>, m: Metric)
    ensures m in Maybe(f, l, v) <==> v.Some? && m.family == f && m.labels == l && m.value == v.value
  {
  }

  lemma FlagSaid(b: Option<bool>, m: Metric)
    ensures Flag(b).Some? && m.value == Flag(b).value <==> b.Some? && IsFlag(m, b.value)
  {
  }

  lemma CodeAt(table: seq<(string, int)>, i: nat, m: Metric, s: string)
    requires i < |table| && table[i].0 == s
    requires forall j, k :: 0 <= j < k < |table| ==> table[j].0 != table[k].0
    ensures IsCode(m, table, s) <==> IsInt(m, table[i].1)
  {
  }

  lemma SwitchCoded(s: string, m: Metric)
    ensures m.value == Integral(IntCount(KillSwitchValue(s))) <==> IsCode(m, SWITCH_CODES, s)
  {
    var t := SWITCH_CODES;
    assert t[0] == ("absent", 0) && t[1] == ("cleared", 1) && t[2] == ("active", 2);
    assert |"absent"| != |"cleared"| && "absent"[1] != "active"[1];
    if i :| 0 <= i < |t| && t[i].0 == s { CodeAt(t, i, m, s); }
  }

  lemma ReadinessCoded(s: string, m: Metric)
    ensures m.value == Integral(IntCount(ReadinessValue(s))) <==> IsCode(m, READINESS_CODES, s)
  {
    var t := READINESS_CODES;
    assert t[0] == ("disabled", 0) && t[1] == ("configured", 1) && t[2] == ("missing_credentials", 2);
    assert t[3] == ("invalid_config", 3);
    assert |"disabled"| == 8 && |"configured"| == 10 && |"missing_credentials"| == 19 && |"invalid_config"| == 14;
    if i :| 0 <= i < |t| && t[i].0 == s { CodeAt(t, i, m, s); }
  }

  lemma ProbeCoded(s: string, m: Metric)
    ensures m.value == Integral(IntCount(ProbeValue(s))) <==> IsCode(m, PROBE_CODES, s)
  {
    var t := PROBE_CODES;
    assert t[0] == ("probe_ok", 1) && t[1] == ("probe_http_error", 2) && t[2] == ("probe_timeout", 3);
    assert t[3] == ("probe_unreachable", 4);
    assert |"probe_ok"| == 8 && |"probe_http_error"| == 16 && |"probe_timeout"| == 13 && |"probe_unreachable"| == 17;
    if i :| 0 <= i < |t| && t[i].0 == s { CodeAt(t, i, m, s); }
  }

  lemma OutcomeCoded(outcome: Option<string>, m: Metric)
    ensures m.value == Integral(IntCount(OutcomeValue(outcome))) <==>
      (if outcome.Some? && Text.NonBlank(outcome.value) then IsCode(m, OUTCOME_CODES, Text.Strip(outcome.value))
       else IsInt(m, -1))
  {
    hide Text.Strip;
    var t := OUTCOME_CODES;
    assert t[0] == ("expected_warning", 1) && t[1] == ("expected_mismatch", 2) && t[2] == ("simulated_recovery_ok", 3);
    assert |"expected_warning"| == 16 && |"expected_mismatch"| == 17 && |"simulated_recovery_ok"| == 21;
    if Usable(outcome) {
      var s := Text.Strip(outcome.value);
      if i :| 0 <= i < |t| && t[i].0 == s { CodeAt(t, i, m, s); }
    }
  }

  // ---------------------------------------------------------------- section by section

  lemma ReadinessSaid(a: Artifacts, m: Metric)
    requires a.readiness.Some? && ReadinessFault(a.readiness.value).None?
    ensures m in ReadinessMetrics(CoreLabels(a), a.readiness.value) <==> ReadinessLine(a, m)
  {
    hide Maybe, Flag, IsFlag, IsCode, CoreLabels, CoreSaid, ReadinessValue, Text.NonBlank;
    var r := a.readiness.value;
    var l := CoreLabels(a) + [(State, r.state.value)];
    CoreMore(a, m, State, r.state.value);
    MaybeLine(ReadinessState, l, Number(ReadinessValue(r.state.value)), m);
    MaybeLine(ReadinessEnabled, l, Flag(r.enabled), m);
    MaybeLine(ReadinessMissing, l, Counted(r.missing), m);
    MaybeLine(ReadinessProbePerformed, l, Flag(r.probePerformed), m);
    ReadinessCoded(r.state.value, m);
    FlagSaid(r.enabled, m);
    FlagSaid(r.probePerformed, m);
  }

  lemma ProbeLabelsSaid(a: Artifacts, p: ProbeFile, l: seq<(Key, string)>)
    requires ProbeFault(p).None?
    ensures l == ProbeLabels(CoreLabels(a), p) <==> ProbeSaid(a, p, l)
  {
    hide CoreSaid, CoreLabels, Text.NonBlank;
    FiveLabels(a);
    var labels := ProbeLabels(CoreLabels(a), p);
    assert |labels| == if p.errorClass.Present? then 8 else 7;
    assert labels[..5] == CoreLabels(a);
    assert labels[5] == (State, p.state.value) && labels[6] == (NetworkScope, p.scope.value);
    assert p.errorClass.Present? ==> labels[7] == (ErrorClass, p.errorClass.value);
    if |l| == |labels| {
      CoreExactly(a, l);
      assert l == l[..5] + l[5..] && labels == labels[..5] + labels[5..];
      if ProbeSaid(a, p, l) {
        assert l[5..] == labels[5..];
      }
    }
  }

  lemma ProbeSection(a: Artifacts, m: Metric)
    requires a.probe.Some? && ProbeFault(a.probe.value).None?
    ensures m in ProbeMetrics(CoreLabels(a), a.probe.value) <==> ProbeLine(a, m)
  {
    hide Maybe, Flag, IsFlag, IsCode, CoreLabels, ProbeSaid, ProbeValue, Text.NonBlank, ProbeLabels;
    var p := a.probe.value;
    var l := ProbeLabels(CoreLabels(a), p);
    ProbeLabelsSaid(a, p, m.labels);
    MaybeLine(ProbeState, l, Number(ProbeValue(p.state.value)), m);
    MaybeLine(ProbePerformed, l, Flag(p.probePerformed), m);
    MaybeLine(ProbeLatency, l, if p.latencySeconds.Present? then Measured(Some(p.latencySeconds.value)) else None, m);
    MaybeLine(ProbeHttpStatus, l, if p.httpStatus.Present? then Counted(Some(p.httpStatus.value)) else None, m);
    ProbeCoded(p.state.value, m);
    FlagSaid(p.probePerformed, m);
  }

  lemma TwoLabels(l: seq<(Key, string)>, x: (Key, string), y: (Key, string))
    ensures l == [x, y] <==> |l| == 2 && l[0].0 == x.0 && l[0].1 == x.1 && l[1].0 == y.0 && l[1].1 == y.1
  {
    if |l| == 2 {
      assert l[0] == (l[0].0, l[0].1) && l[1] == (l[1].0, l[1].1);
      assert x == (x.0, x.1) && y == (y.0, y.1);
    }
  }

  lemma SwitchSection(a: Artifacts, m: Metric)
    ensures m in KillSwitchMetrics(RunIdOf(a), a.metadata.killSwitch) <==> SwitchLine(a, m)
  {
    hide Maybe, IsCode, KillSwitchValue, Text.NonBlank, Text.Strip;
    if a.metadata.killSwitch.Some? {
      var text := KillSwitchText(a.metadata.killSwitch.value);
      MaybeLine(KillSwitchState, [(RunId, RunIdOf(a)), (State, text)], Number(KillSwitchValue(text)), m);
      TwoLabels(m.labels, (RunId, RunIdOf(a)), (State, text));
      SwitchCoded(text, m);
    }
  }

  lemma DurationSaid(md: Metadata, m: Metric, stamper: Stamper)
    ensures Stamped(Duration(md), stamper).Some? && m.value == Stamped(Duration(md), stamper).value <==>
      md.started.Some? && md.completed.Some? && IsDuration(m, md.started.value, md.completed.value, stamper)
  {
    if md.started.Some? && md.completed.Some? {
      var d: nat := Duration(md).value;
      assert IsSeconds(m, stamper(d)) <==> m.value == Stamped(Duration(md), stamper).value;
    }
  }

  lemma TimeSection(a: Artifacts, m: Metric, stamper: Stamper)
    ensures m in TimeMetrics(CoreLabels(a), a.metadata, stamper) <==> TimeLine(a, m, stamper)
  {
    hide Maybe, CoreLabels, CoreOnly;
    var md, l := a.metadata, CoreLabels(a);
    CoreAlone(a, m);
    MaybeLine(RunCreated, l, Stamped(md.created, stamper), m);
    MaybeLine(RunStarted, l, Stamped(md.started, stamper), m);
    MaybeLine(RunCompleted, l, Stamped(md.completed, stamper), m);
    MaybeLine(RunDuration, l, Stamped(Duration(md), stamper), m);
    DurationSaid(md, m, stamper);
    hide Duration;
  }

  lemma BacktestSection(a: Artifacts, m: Metric)
    ensures m in BacktestMetrics(CoreLabels(a), a.figures) <==> BacktestLine(a, m)
  {
    hide Maybe, CoreLabels, CoreOnly;
    var f, l := a.figures, CoreLabels(a);
    CoreAlone(a, m);
    MaybeLine(InputCandles, l, Counted(f.candles), m);
    MaybeLine(BarsProcessed, l, Counted(f.bars), m);
    MaybeLine(EngineDuration, l, Measured(f.engineSeconds), m);
  }

  lemma PaperSection(a: Artifacts, m: Metric)
    ensures m in PaperMetrics(CoreLabels(a), a.figures) <==> PaperLine(a, m)
  {
    hide Maybe, CoreLabels, CoreOnly;
    var f, l := a.figures, CoreLabels(a);
    CoreAlone(a, m);
    MaybeLine(HeartbeatTotal, l, Counted(f.heartbeats), m);
    MaybeLine(SyntheticDuration, l, Measured(f.syntheticSeconds), m);
  }

  lemma ScenarioLabelsSaid(a: Artifacts, l: seq<(Key, string)>)
    requires Usable(a.figures.scenario.name)
    ensures l == ScenarioLabels(RunIdOf(a), a.figures.scenario) <==> ScenarioSaid(a, l)
  {
    hide Text.NonBlank;
    var s, labels := a.figures.scenario, ScenarioLabels(RunIdOf(a), a.figures.scenario);
    if |l| == |labels| {
      assert forall i :: 0 <= i < |l| ==> l[i] == (l[i].0, l[i].1);
      assert labels[0] == (RunId, RunIdOf(a)) && labels[1] == (ScenarioName, s.name.value);
      assert |labels| == 3 ==> labels[2] == (ScenarioVersion, s.version.value);
    }
  }

  lemma ScenarioSection(a: Artifacts, m: Metric)
    ensures m in ScenarioMetrics(RunIdOf(a), a.figures.scenario) <==> ScenarioLine(a, m)
  {
    hide Maybe, Flag, IsFlag, ScenarioLabels, Text.NonBlank;
    var s := a.figures.scenario;
    if Usable(s.name) {
      var l := ScenarioLabels(RunIdOf(a), s);
      ScenarioLabelsSaid(a, m.labels);
      hide ScenarioSaid;
      MaybeLine(StrategyRegistered, l, Flag(s.registered), m);
      MaybeLine(ActionTriggered, l, Flag(s.triggered), m);
      MaybeLine(BarsSeen, l, Counted(s.barsSeen), m);
      MaybeLine(OrdersSubmitted, l, Counted(s.orders), m);
      MaybeLine(Fills, l, Counted(s.fills), m);
      FlagSaid(s.registered, m);
      FlagSaid(s.triggered, m);
    }
  }

  lemma CarryingSnoc(journal: seq<Option<string>>, last: Option<string>, event: string)
    ensures Carrying(journal + [last], event)
      == Carrying(journal, event) + (if last == Some(event) then {|journal|} else {})
    ensures |journal| !in Carrying(journal, event)
  {
  }

  /** Counting names is counting the entries that carry them. */
  lemma {:induction false} NamesCounted(journal: seq<Option<string>>, event: string)
    ensures multiset(EventNames(journal))[event] == if Text.NonBlank(event) then |Carrying(journal, event)| else 0
  {
    hide Text.NonBlank, Carrying;
    if journal == [] {
      NothingCarried(event);
    } else {
      var front, last := journal[..|journal| - 1], journal[|journal| - 1];
      assert journal == front + [last];
      NamesCounted(front, event);
      CarryingSnoc(front, last, event);
      RunEmitter.EventNamesSnoc(front, last);
    }
  }

  lemma NothingCarried(event: string)
    ensures Carrying([], event) == {}
  {
  }

  lemma EventLines(core: seq<(Key, string)>, names: seq<string>, counts: multiset<string>, m: Metric)
    ensures m in EventMetrics(core, names, counts) <==>
      m.family == JournalEventTotal && |m.labels| == |core| + 1 && m.labels[|core|].1 in names
      && m.labels == core + [(Event, m.labels[|core|].1)] && IsInt(m, counts[m.labels[|core|].1])
  {
    var ms := EventMetrics(core, names, counts);
    if m in ms {
      var i :| 0 <= i < |ms| && ms[i] == m;
      assert m.labels[|core|] == (Event, names[i]);
    }
    if |m.labels| == |core| + 1 && m.labels[|core|].1 in names {
      var i :| 0 <= i < |names| && names[i] == m.labels[|core|].1;
      assert ms[i] in ms;
    }
  }

  lemma JournalSection(a: Artifacts, m: Metric)
    requires a.includeJournal
    ensures m in JournalMetrics(CoreLabels(a), a.journal) <==> JournalLine(a, m)
  {
    hide Maybe, CoreLabels, CoreSaid, EventMetrics, EventNames, Carrying, Text.NonBlank, Sorting.SortedStrings, CoreAnd;
    hide CoreOnly;
    FiveLabels(a);
    var counts := multiset(EventNames(a.journal));
    var names := Sorting.SortedStrings(Names(counts));
    Sorting.SortedStringsShape(Names(counts));
    CoreAlone(a, m);
    MaybeLine(JournalEventsTotal, CoreLabels(a), Number(|a.journal|), m);
    EventLines(CoreLabels(a), names, counts, m);
    if |m.labels| == 6 {
      var e := m.labels[5].1;
      CoreMore(a, m, Event, e);
      NamesCounted(a.journal, e);
      assert e in names <==> counts[e] > 0;
    }
  }

  lemma FourChecks(core: seq<(Key, string)>, s: Summary, m: Metric)
    ensures m in CheckMetrics(core, s, 4) <==>
      m in CheckMetric(core, s, 0) || m in CheckMetric(core, s, 1) || m in CheckMetric(core, s, 2)
      || m in CheckMetric(core, s, 3)
  {
    hide CheckMetric;
    assert CheckMetrics(core, s, 1) == [] + CheckMetric(core, s, 0);
    assert CheckMetrics(core, s, 2) == CheckMetrics(core, s, 1) + CheckMetric(core, s, 1);
    assert CheckMetrics(core, s, 3) == CheckMetrics(core, s, 2) + CheckMetric(core, s, 2);
    assert CheckMetrics(core, s, 4) == CheckMetrics(core, s, 3) + CheckMetric(core, s, 3);
  }

  lemma CheckSaid(a: Artifacts, s: Summary, m: Metric)
    ensures m in CheckMetrics(CoreLabels(a), s, 4) <==>
      m.family == ReconciliationChecks
      && (IsTally(a, m, "ok", s.ok) || IsTally(a, m, "warning", s.warning)
          || IsTally(a, m, "mismatch", s.mismatch) || IsTally(a, m, "unknown", s.unknown))
  {
    hide Maybe, CoreLabels, CoreAnd;
    var core := CoreLabels(a);
    FourChecks(core, s, m);
    MaybeLine(ReconciliationChecks, core + [(Severity, "ok")], Counted(s.ok), m);
    MaybeLine(ReconciliationChecks, core + [(Severity, "warning")], Counted(s.warning), m);
    MaybeLine(ReconciliationChecks, core + [(Severity, "mismatch")], Counted(s.mismatch), m);
    MaybeLine(ReconciliationChecks, core + [(Severity, "unknown")], Counted(s.unknown), m);
    CoreMore(a, m, Severity, "ok");
    CoreMore(a, m, Severity, "warning");
    CoreMore(a, m, Severity, "mismatch");
    CoreMore(a, m, Severity, "unknown");
  }

  lemma ReconciliationSection(a: Artifacts, m: Metric, stamper: Stamper)
    requires a.reconciliation.Some? && ReconciliationFault(a.reconciliation.value).None?
    ensures m in ReconciliationMetrics(CoreLabels(a), a.reconciliation.value, stamper)
      <==> ReconciliationLine(a, m, stamper)
  {
    hide Maybe, CoreLabels, CoreAnd, CoreOnly, CheckMetrics, IsTally;
    var r, core := a.reconciliation.value, CoreLabels(a);
    MaybeLine(ReconciliationStatus, core + [(Status, r.status)], Number(1), m);
    MaybeLine(ReconciliationTimestamp, core, Stamped(r.stamp, stamper), m);
    CoreMore(a, m, Status, r.status);
    CoreAlone(a, m);
    CheckSaid(a, r.summary.value, m);
  }

  lemma OneDrillSaid(a: Artifacts, d: DrillFile, m: Metric)
    ensures m in DrillMetrics(RunIdOf(a), d) <==> OneDrillLine(a, d, m)
  {
    hide IsCode, OutcomeValue, Text.NonBlank, Text.Strip;
    if Usable(d.name) {
      TwoLabels(m.labels, (RunId, RunIdOf(a)), (DrillName, Text.Strip(d.name.value)));
      assert |m.labels| == 2 ==> m.labels[1] == (m.labels[1].0, m.labels[1].1);
      OutcomeCoded(d.outcome, m);
    }
  }

  lemma {:induction false} DrillsSaid(a: Artifacts, drills: seq<DrillFile>, m: Metric)
    ensures m in AllDrillMetrics(RunIdOf(a), drills) <==> exists i :: 0 <= i < |drills| && OneDrillLine(a, drills[i], m)
  {
    hide DrillMetrics, OneDrillLine, RunIdOf;
    if drills != [] {
      var n := |drills| - 1;
      DrillsSaid(a, drills[..n], m);
      OneDrillSaid(a, drills[n], m);
      assert forall i :: 0 <= i < n ==> drills[i] == drills[..n][i];
      if i :| 0 <= i < n && OneDrillLine(a, drills[..n][i], m) { assert OneDrillLine(a, drills[i], m); }
    }
  }

  lemma ConnectivitySection(a: Artifacts, m: Metric)
    requires StateFault(a).None?
    ensures m in ConnectivityMetrics(a) <==> ReadinessLine(a, m) || ProbeLine(a, m)
  {
    hide ReadinessMetrics, ProbeMetrics, ReadinessFault, ProbeFault, CoreLabels;
    if a.readiness.Some? { ReadinessSaid(a, m); }
    if a.probe.Some? { ProbeSection(a, m); }
  }

  lemma ResultSection(a: Artifacts, m: Metric, stamper: Stamper)
    ensures m in ResultMetrics(a, stamper) <==>
      SwitchLine(a, m) || TimeLine(a, m, stamper) || BacktestLine(a, m) || ScenarioLine(a, m) || PaperLine(a, m)
  {
    hide KillSwitchMetrics, TimeMetrics, BacktestMetrics, ScenarioMetrics, PaperMetrics, CoreLabels, RunIdOf;
    hide SwitchLine, TimeLine, BacktestLine, ScenarioLine, PaperLine;
    SwitchSection(a, m);
    TimeSection(a, m, stamper);
    BacktestSection(a, m);
    ScenarioSection(a, m);
    PaperSection(a, m);
  }

  lemma RecordSection(a: Artifacts, m: Metric, stamper: Stamper)
    requires RecordFault(a).None?
    ensures m in RecordMetrics(a, stamper) <==> JournalLine(a, m) || ReconciliationLine(a, m, stamper)
  {
    hide JournalMetrics, ReconciliationMetrics, ReconciliationFault, CoreLabels;
    if a.includeJournal { JournalSection(a, m); }
    if a.reconciliation.Some? { ReconciliationSection(a, m, stamper); }
  }

  /** Main result on values: a run without a fault writes exactly the lines its artifacts call for. */
  lemma ReportedExactly(a: Artifacts, stamper: Stamper, m: Metric)
    requires RunFault(a).None?
    ensures m in RunMetrics.RunMetrics(a, stamper) <==> Says(a, m, stamper)
  {
    hide Maybe, ConnectivityMetrics, ResultMetrics, RecordMetrics, AllDrillMetrics, InfoLabels, InfoSaid, RunIdOf;
    hide StateFault, RecordFault, ReadinessLine, ProbeLine, SwitchLine, TimeLine, BacktestLine, ScenarioLine, PaperLine;
    hide JournalLine, ReconciliationLine, OneDrillLine;
    MaybeLine(RunInfo, InfoLabels(a), Number(1), m);
    InfoExactly(a, m.labels);
    ConnectivitySection(a, m);
    ResultSection(a, m, stamper);
    RecordSection(a, m, stamper);
    DrillsSaid(a, a.drills, m);
  }

  // ---------------------------------------------------------------- faults

  /** Everything that is checked, in checking order. */
  const CHECKS: seq<Fault> := [
    Fault(ReadinessJson, "state"), Fault(ReadinessJson, "enabled"), Fault(ReadinessJson, "missing_required_count"),
    Fault(ReadinessJson, "probe_performed"), Fault(ProbeJson, "state"), Fault(ProbeJson, "probe_performed"),
    Fault(ProbeJson, "network_scope"), Fault(ProbeJson, "error_class"), Fault(ProbeJson, "http_status"),
    Fault(ProbeJson, "latency_ms"), Fault(ReconciliationJson, "status"), Fault(ReconciliationJson, "summary"),
    Fault(ReconciliationJson, "summary.ok"), Fault(ReconciliationJson, "summary.warning"),
    Fault(ReconciliationJson, "summary.mismatch"), Fault(ReconciliationJson, "summary.unknown"),
    Fault(ReconciliationJson, "ts_utc")]

  predicate Blank(s: Option<string>) {
    s.None? || !Text.NonBlank(s.value)
  }

  predicate BadReadiness(r: ReadinessFile, check: nat) {
    match check
    case 0 => Blank(r.state)
    case 1 => r.enabled.None?
    case 2 => r.missing.None?
    case 3 => r.probePerformed.None?
    case _ => false
  }

  predicate BadProbe(p: ProbeFile, check: nat) {
    match check
    case 4 => Blank(p.state)
    case 5 => p.probePerformed.None?
    case 6 => Blank(p.scope)
    case 7 => p.errorClass.WrongType? || (p.errorClass.Present? && !Text.NonBlank(p.errorClass.value))
    case 8 => p.httpStatus.WrongType?
    case 9 => p.latencySeconds.WrongType?
    case _ => false
  }

  predicate BadReconciliation(r: ReconciliationFile, check: nat) {
    match check
    case 10 => r.status !in ["ok", "warning", "mismatch", "unknown"]
    case 11 => r.summary.None?
    case 12 => r.summary.Some? && r.summary.value.ok.None?
    case 13 => r.summary.Some? && r.summary.value.warning.None?
    case 14 => r.summary.Some? && r.summary.value.mismatch.None?
    case 15 => r.summary.Some? && r.summary.value.unknown.None?
    case 16 => r.stamp.None?
    case _ => false
  }

  /** One check fails. */
  predicate Bad(a: Artifacts, check: nat) {
    || (a.readiness.Some? && BadReadiness(a.readiness.value, check))
    || (a.probe.Some? && BadProbe(a.probe.value, check))
    || (a.reconciliation.Some? && BadReconciliation(a.reconciliation.value, check))
  }

  /** The first check that fails is number `i`. */
  predicate FirstBad(a: Artifacts, i: nat) {
    Bad(a, i) && forall j :: 0 <= j < i ==> !Bad(a, j)
  }

  lemma ReadinessChecked(r: ReadinessFile)
    ensures ReadinessFault(r).None? <==> forall i: nat :: !BadReadiness(r, i)
    ensures ReadinessFault(r).Some? ==> exists i: nat ::
      i < 4 && ReadinessFault(r) == Some(CHECKS[i]) && BadReadiness(r, i)
      && forall j: nat :: j < i ==> !BadReadiness(r, j)
  {
    hide Text.NonBlank;
    var i: nat := if Blank(r.state) then 0 else if r.enabled.None? then 1 else if r.missing.None? then 2 else 3;
    assert ReadinessFault(r).Some? ==> ReadinessFault(r) == Some(CHECKS[i]) && BadReadiness(r, i);
  }

  lemma ProbeChecked(p: ProbeFile)
    ensures ProbeFault(p).None? <==> forall i: nat :: !BadProbe(p, i)
    ensures ProbeFault(p).Some? ==> exists i: nat ::
      4 <= i < 10 && ProbeFault(p) == Some(CHECKS[i]) && BadProbe(p, i) && forall j: nat :: j < i ==> !BadProbe(p, j)
  {
    hide Text.NonBlank;
    var i: nat := if BadProbe(p, 4) then 4 else if BadProbe(p, 5) then 5 else if BadProbe(p, 6) then 6
      else if BadProbe(p, 7) then 7 else if BadProbe(p, 8) then 8 else 9;
    assert ProbeFault(p).Some? ==> ProbeFault(p) == Some(CHECKS[i]) && BadProbe(p, i);
  }

  lemma SummaryChecked(s: Summary)
    ensures SummaryFault(s, 0) ==
      if s.ok.None? then Some(CHECKS[12]) else if s.warning.None? then Some(CHECKS[13])
      else if s.mismatch.None? then Some(CHECKS[14]) else if s.unknown.None? then Some(CHECKS[15]) else None
  {
    assert SummaryFault(s, 4) == None;
    assert SummaryFault(s, 3) == if s.unknown.None? then Some(CHECKS[15]) else None;
    assert SummaryFault(s, 2) == if s.mismatch.None? then Some(CHECKS[14]) else SummaryFault(s, 3);
    assert SummaryFault(s, 1) == if s.warning.None? then Some(CHECKS[13]) else SummaryFault(s, 2);
  }

  lemma ReconciliationChecked(r: ReconciliationFile)
    ensures ReconciliationFault(r).None? <==> forall i: nat :: !BadReconciliation(r, i)
    ensures ReconciliationFault(r).Some? ==> exists i: nat ::
      10 <= i < 17 && ReconciliationFault(r) == Some(CHECKS[i]) && BadReconciliation(r, i)
      && forall j: nat :: j < i ==> !BadReconciliation(r, j)
  {
    if r.summary.Some? { SummaryChecked(r.summary.value); }
    hide SummaryFault;
    var i: nat := if BadReconciliation(r, 10) then 10 else if BadReconciliation(r, 11) then 11
      else if BadReconciliation(r, 12) then 12 else if BadReconciliation(r, 13) then 13
      else if BadReconciliation(r, 14) then 14 else if BadReconciliation(r, 15) then 15 else 16;
    assert ReconciliationFault(r).Some? ==> ReconciliationFault(r) == Some(CHECKS[i]) && BadReconciliation(r, i);
  }

  /** A run is refused if and only if a check fails, and then for the first one that does. */
  lemma RefusedExactly(a: Artifacts)
    ensures RunFault(a).None? <==> forall i: nat :: !Bad(a, i)
    ensures RunFault(a).Some? ==> exists i: nat :: i < |CHECKS| && FirstBad(a, i) && RunFault(a) == Some(CHECKS[i])
  {
    hide ReadinessFault, ProbeFault, ReconciliationFault, BadReadiness, BadProbe, BadReconciliation;
    assert |CHECKS| == 17;
    if a.readiness.Some? { ReadinessChecked(a.readiness.value); }
    if a.probe.Some? { ProbeChecked(a.probe.value); }
    if a.reconciliation.Some? { ReconciliationChecked(a.reconciliation.value); }
    ChecksApart(a);
    if a.readiness.Some? && ReadinessFault(a.readiness.value).Some? {
      var i: nat :| i < 4 && ReadinessFault(a.readiness.value) == Some(CHECKS[i]) && BadReadiness(a.readiness.value, i)
        && forall j: nat :: j < i ==> !BadReadiness(a.readiness.value, j);
      assert FirstBad(a, i);
    } else if a.probe.Some? && ProbeFault(a.probe.value).Some? {
      var i: nat :| 4 <= i < 10 && ProbeFault(a.probe.value) == Some(CHECKS[i]) && BadProbe(a.probe.value, i)
        && forall j: nat :: j < i ==> !BadProbe(a.probe.value, j);
      assert FirstBad(a, i);
    } else if a.reconciliation.Some? && ReconciliationFault(a.reconciliation.value).Some? {
      var i: nat :| 10 <= i < 17 && ReconciliationFault(a.reconciliation.value) == Some(CHECKS[i])
        && BadReconciliation(a.reconciliation.value, i)
        && forall j: nat :: j < i ==> !BadReconciliation(a.reconciliation.value, j);
      assert FirstBad(a, i);
    }
  }

  lemma ChecksApart(a: Artifacts)
    ensures a.readiness.Some? ==> forall i: nat :: BadReadiness(a.readiness.value, i) ==> i < 4
    ensures a.probe.Some? ==> forall i: nat :: BadProbe(a.probe.value, i) ==> 4 <= i < 10
    ensures a.reconciliation.Some? ==> forall i: nat :: BadReconciliation(a.reconciliation.value, i) ==> 10 <= i < 17
  {
  }
}
