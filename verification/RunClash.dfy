/** When do two runs of one metrics document share a series? Said on their artifacts, and proved to be
    exactly when two of their lines do. */
module RunClash {
  import opened Decimals
  import opened MetricNames
  import opened MetricSeries
  import opened RunMetrics
  import opened RunSeries
  import opened RunDocument
  import Sorting
  import Text

  // ---------------------------------------------------------------- the condition, on artifacts

  predicate SameProbe(p: ProbeFile, q: ProbeFile) {
    p.state == q.state && p.scope == q.scope && p.errorClass == q.errorClass
  }

  predicate Both<T>(a: Option<T>, b: Option<T>) {
    a.Some? && b.Some?
  }

  predicate SharedTime(m: Metadata, n: Metadata) {
    Both(m.created, n.created) || Both(m.started, n.started) || Both(m.completed, n.completed)
  }

  predicate SharedBacktest(f: Figures, g: Figures) {
    Both(f.candles, g.candles) || Both(f.bars, g.bars) || Both(f.engineSeconds, g.engineSeconds)
  }

  predicate SharedPaper(f: Figures, g: Figures) {
    Both(f.heartbeats, g.heartbeats) || Both(f.syntheticSeconds, g.syntheticSeconds)
  }

  predicate SharedReadiness(a: Artifacts, b: Artifacts) {
    Both(a.readiness, b.readiness) && a.readiness.value.state == b.readiness.value.state
  }

  predicate SharedProbe(a: Artifacts, b: Artifacts) {
    Both(a.probe, b.probe) && SameProbe(a.probe.value, b.probe.value)
  }

  predicate SharedResult(a: Artifacts, b: Artifacts) {
    SharedTime(a.metadata, b.metadata) || SharedBacktest(a.figures, b.figures) || SharedPaper(a.figures, b.figures)
  }

  predicate SharedJournal(a: Artifacts, b: Artifacts) {
    (a.includeJournal && b.includeJournal) || Both(a.reconciliation, b.reconciliation)
  }

  predicate SharedGauge(s: Scenario, t: Scenario) {
    || Both(s.registered, t.registered) || Both(s.triggered, t.triggered) || Both(s.barsSeen, t.barsSeen)
    || Both(s.orders, t.orders) || Both(s.fills, t.fills)
  }

  predicate SharedScenario(s: Scenario, t: Scenario) {
    && Usable(s.name) && s.name == t.name
    && (if Usable(s.version) then s.version == t.version else !Usable(t.version))
    && SharedGauge(s, t)
  }

  predicate SharedSwitch(s: Option<string>, t: Option<string>) {
    Both(s, t) && KillSwitchText(s.value) == KillSwitchText(t.value)
  }

  predicate SharedDrill(ds: seq<DrillFile>, es: seq<DrillFile>) {
    exists i, j :: 0 <= i < |ds| && 0 <= j < |es| && SameDrill(ds[i], es[j])
  }

  predicate SameDrill(d: DrillFile, e: DrillFile) {
    Usable(d.name) && Usable(e.name) && Text.Strip(d.name.value) == Text.Strip(e.name.value)
  }

  predicate SharedNamed(a: Artifacts, b: Artifacts) {
    || SharedSwitch(a.metadata.killSwitch, b.metadata.killSwitch)
    || SharedScenario(a.figures.scenario, b.figures.scenario)
  }

  /** Two runs clash on their info gauges, on another record with equal core labels, or on a gauge that
      carries the run id alone. */
  predicate Clashes(a: Artifacts, b: Artifacts) {
    || InfoLabels(a) == InfoLabels(b)
    || (CoreLabels(a) == CoreLabels(b)
        && (SharedReadiness(a, b) || SharedProbe(a, b) || SharedResult(a, b) || SharedJournal(a, b)))
    || (RunIdOf(a) == RunIdOf(b) && (SharedNamed(a, b) || SharedDrill(a.drills, b.drills)))
  }

  // ---------------------------------------------------------------- lists of metrics that meet

  /** Some line of one list is the same series as some line of the other. */
  predicate Meet(ms: seq<Metric>, ns: seq<Metric>) {
    exists i, j :: 0 <= i < |ms| && 0 <= j < |ns| && !Apart(ms[i], ns[j])
  }

  lemma MeetAt(ms: seq<Metric>, ns: seq<Metric>, i: nat, j: nat)
    requires i < |ms| && j < |ns| && !Apart(ms[i], ns[j])
    ensures Meet(ms, ns)
  {
  }

  lemma MeetLeft(a: seq<Metric>, b: seq<Metric>, ns: seq<Metric>)
    ensures Meet(a + b, ns) <==> Meet(a, ns) || Meet(b, ns)
  {
    hide Apart;
    var ms := a + b;
    if Meet(a, ns) {
      var i, j :| 0 <= i < |a| && 0 <= j < |ns| && !Apart(a[i], ns[j]);
      MeetAt(ms, ns, i, j);
    }
    if Meet(b, ns) {
      var i, j :| 0 <= i < |b| && 0 <= j < |ns| && !Apart(b[i], ns[j]);
      assert ms[|a| + i] == b[i];
      MeetAt(ms, ns, |a| + i, j);
    }
  }

  lemma MeetSymmetric(ms: seq<Metric>, ns: seq<Metric>)
    ensures Meet(ms, ns) <==> Meet(ns, ms)
  {
    if Meet(ms, ns) {
      var i, j :| 0 <= i < |ms| && 0 <= j < |ns| && !Apart(ms[i], ns[j]);
      MeetAt(ns, ms, j, i);
    }
    if Meet(ns, ms) {
      var i, j :| 0 <= i < |ns| && 0 <= j < |ms| && !Apart(ns[i], ms[j]);
      MeetAt(ms, ns, j, i);
    }
  }

  lemma RanksApart(ms: seq<Metric>, ns: seq<Metric>, lo: nat, mid: nat, hi: nat)
    requires InOrder(ms, lo, mid) && InOrder(ns, mid, hi)
    ensures !Meet(ms, ns)
  {
    hide Family.Rank;
  }

  /** Families in the same order on both sides: only like sections can meet. */
  lemma MeetConcat(a: seq<Metric>, b: seq<Metric>, c: seq<Metric>, d: seq<Metric>, lo: nat, mid: nat, hi: nat)
    requires InOrder(a, lo, mid) && InOrder(c, lo, mid) && InOrder(b, mid, hi) && InOrder(d, mid, hi) && lo <= mid <= hi
    ensures Meet(a + b, c + d) <==> Meet(a, c) || Meet(b, d)
    ensures InOrder(a + b, lo, hi) && InOrder(c + d, lo, hi)
  {
    InOrderConcat(a, b, lo, mid, hi);
    InOrderConcat(c, d, lo, mid, hi);
    RanksApart(a, d, lo, mid, hi);
    RanksApart(c, b, lo, mid, hi);
    hide Meet, InOrder;
    MeetLeft(a, b, c + d);
    MeetSymmetric(a, c + d);
    MeetSymmetric(b, c + d);
    MeetLeft(c, d, a);
    MeetLeft(c, d, b);
    MeetSymmetric(c, a);
    MeetSymmetric(d, a);
    MeetSymmetric(c, b);
    MeetSymmetric(d, b);
  }

  lemma MeetNothing(ms: seq<Metric>)
    ensures !Meet([], ms) && !Meet(ms, [])
  {
  }

  /** Two lists of one section, and whether they meet. */
  predicate Pair(ms: seq<Metric>, ns: seq<Metric>, lo: nat, hi: nat, met: bool) {
    InOrder(ms, lo, hi) && InOrder(ns, lo, hi) && met == Meet(ms, ns)
  }

  lemma PairMaybe(f: Family, l: seq<(Key, string)>, v: Option<Value>, l': seq<(Key, string)>, v': Option<Value>)
    ensures Pair(Maybe(f, l, v), Maybe(f, l', v'), f.Rank(), f.Rank() + 1, Both(v, v') && l == l')
  {
    hide Family.Rank;
    if Both(v, v') && l == l' {
      MeetAt(Maybe(f, l, v), Maybe(f, l', v'), 0, 0);
    }
  }

  lemma PairConcat(a: seq<Metric>, b: seq<Metric>, c: seq<Metric>, d: seq<Metric>, lo: nat, mid: nat, hi: nat,
                   p: bool, q: bool)
    requires Pair(a, c, lo, mid, p) && Pair(b, d, mid, hi, q) && lo <= mid <= hi
    ensures Pair(a + b, c + d, lo, hi, p || q)
  {
    hide Meet, InOrder;
    MeetConcat(a, b, c, d, lo, mid, hi);
  }

  /** One more gauge on both sides. */
  lemma Add(ms: seq<Metric>, ns: seq<Metric>, lo: nat, met: bool, f: Family,
            l: seq<(Key, string)>, v: Option<Value>, l': seq<(Key, string)>, v': Option<Value>)
    returns (more: seq<Metric>, more': seq<Metric>)
    requires lo <= f.Rank() && Pair(ms, ns, lo, f.Rank(), met)
    ensures more == ms + Maybe(f, l, v) && more' == ns + Maybe(f, l', v')
    ensures Pair(more, more', lo, f.Rank() + 1, met || (Both(v, v') && l == l'))
  {
    hide Pair, Maybe, Family.Rank;
    PairMaybe(f, l, v, l', v');
    PairConcat(ms, Maybe(f, l, v), ns, Maybe(f, l', v'), lo, f.Rank(), f.Rank() + 1, met, Both(v, v') && l == l');
    more, more' := ms + Maybe(f, l, v), ns + Maybe(f, l', v');
  }

  lemma PairNone(ms: seq<Metric>, lo: nat, hi: nat)
    requires InOrder(ms, lo, hi)
    ensures Pair([], ms, lo, hi, false) && Pair(ms, [], lo, hi, false)
  {
  }

  // ---------------------------------------------------------------- section by section

  lemma PairReadiness(l: seq<(Key, string)>, r: ReadinessFile, l': seq<(Key, string)>, r': ReadinessFile)
    requires ReadinessFault(r).None? && ReadinessFault(r').None?
    ensures Pair(ReadinessGauges(l, r), ReadinessGauges(l', r'), 1, 5, l == l')
  {
    hide Maybe, Pair, ReadinessValue, Text.NonBlank;
    var v, v' := Number(ReadinessValue(r.state.value)), Number(ReadinessValue(r'.state.value));
    PairMaybe(ReadinessState, l, v, l', v');
    var ms, ns := Maybe(ReadinessState, l, v), Maybe(ReadinessState, l', v');
    ms, ns := Add(ms, ns, 1, l == l', ReadinessEnabled, l, Flag(r.enabled), l', Flag(r'.enabled));
    ms, ns := Add(ms, ns, 1, l == l', ReadinessMissing, l, Counted(r.missing), l', Counted(r'.missing));
    ms, ns := Add(ms, ns, 1, l == l', ReadinessProbePerformed, l, Flag(r.probePerformed), l', Flag(r'.probePerformed));
  }

  lemma ProbeRanks()
    ensures ProbeState.Rank() == 5 && ProbePerformed.Rank() == 6 && ProbeLatency.Rank() == 7
    ensures ProbeHttpStatus.Rank() == 8
  {
  }

  lemma PairProbe(l: seq<(Key, string)>, p: ProbeFile, l': seq<(Key, string)>, p': ProbeFile)
    requires ProbeFault(p).None? && ProbeFault(p').None?
    ensures Pair(ProbeGauges(l, p), ProbeGauges(l', p'), 5, 9, l == l')
  {
    hide Maybe, Pair, ProbeValue, Text.NonBlank, Family.Rank;
    ProbeRanks();
    var v, v' := Number(ProbeValue(p.state.value)), Number(ProbeValue(p'.state.value));
    PairMaybe(ProbeState, l, v, l', v');
    var ms, ns := Maybe(ProbeState, l, v), Maybe(ProbeState, l', v');
    ms, ns := Add(ms, ns, 5, l == l', ProbePerformed, l, Flag(p.probePerformed), l', Flag(p'.probePerformed));
    v := if p.latencySeconds.Present? then Measured(Some(p.latencySeconds.value)) else None;
    v' := if p'.latencySeconds.Present? then Measured(Some(p'.latencySeconds.value)) else None;
    ms, ns := Add(ms, ns, 5, l == l', ProbeLatency, l, v, l', v');
    v := if p.httpStatus.Present? then Counted(Some(p.httpStatus.value)) else None;
    v' := if p'.httpStatus.Present? then Counted(Some(p'.httpStatus.value)) else None;
    ms, ns := Add(ms, ns, 5, l == l', ProbeHttpStatus, l, v, l', v');
  }

  lemma PairSwitch(runId: string, s: Option<string>, runId': string, t: Option<string>)
    ensures Pair(KillSwitchMetrics(runId, s), KillSwitchMetrics(runId', t), 9, 10,
      runId == runId' && SharedSwitch(s, t))
  {
    hide Pair, KillSwitchText, KillSwitchValue;
    TidyKillSwitch(runId, s);
    TidyKillSwitch(runId', t);
    if s.None? {
      PairNone(KillSwitchMetrics(runId', t), 9, 10);
    } else if t.None? {
      PairNone(KillSwitchMetrics(runId, s), 9, 10);
    } else {
      var x, y := KillSwitchText(s.value), KillSwitchText(t.value);
      var l, l' := [(RunId, runId), (State, x)], [(RunId, runId'), (State, y)];
      PairMaybe(KillSwitchState, l, Number(KillSwitchValue(x)), l', Number(KillSwitchValue(y)));
      assert l == l' <==> l[0] == l'[0] && l[1] == l'[1];
    }
  }

  lemma PairTimes(l: seq<(Key, string)>, m: Metadata, l': seq<(Key, string)>, m': Metadata, stamper: Stamper)
    ensures Pair(TimeMetrics(l, m, stamper), TimeMetrics(l', m', stamper), 10, 14, l == l' && SharedTime(m, m'))
  {
    hide Maybe, Pair;
    var e := l == l';
    PairMaybe(RunCreated, l, Stamped(m.created, stamper), l', Stamped(m'.created, stamper));
    var ms := Maybe(RunCreated, l, Stamped(m.created, stamper));
    var ns := Maybe(RunCreated, l', Stamped(m'.created, stamper));
    var met := e && Both(m.created, m'.created);
    ms, ns := Add(ms, ns, 10, met, RunStarted, l, Stamped(m.started, stamper), l', Stamped(m'.started, stamper));
    met := met || (e && Both(m.started, m'.started));
    ms, ns := Add(ms, ns, 10, met, RunCompleted, l, Stamped(m.completed, stamper), l', Stamped(m'.completed, stamper));
    met := met || (e && Both(m.completed, m'.completed));
    ms, ns := Add(ms, ns, 10, met, RunDuration, l, Stamped(Duration(m), stamper), l', Stamped(Duration(m'), stamper));
  }

  lemma PairBacktest(l: seq<(Key, string)>, f: Figures, l': seq<(Key, string)>, g: Figures)
    ensures Pair(BacktestMetrics(l, f), BacktestMetrics(l', g), 14, 17, l == l' && SharedBacktest(f, g))
  {
    hide Maybe, Pair;
    var e := l == l';
    PairMaybe(InputCandles, l, Counted(f.candles), l', Counted(g.candles));
    var ms, ns := Maybe(InputCandles, l, Counted(f.candles)), Maybe(InputCandles, l', Counted(g.candles));
    var met := e && Both(f.candles, g.candles);
    ms, ns := Add(ms, ns, 14, met, BarsProcessed, l, Counted(f.bars), l', Counted(g.bars));
    met := met || (e && Both(f.bars, g.bars));
    ms, ns := Add(ms, ns, 14, met, EngineDuration, l, Measured(f.engineSeconds), l', Measured(g.engineSeconds));
  }

  lemma ScenarioRanks()
    ensures StrategyRegistered.Rank() == 17 && ActionTriggered.Rank() == 18 && BarsSeen.Rank() == 19
    ensures OrdersSubmitted.Rank() == 20 && Fills.Rank() == 21
  {
  }

  lemma PairScenarioGauges(l: seq<(Key, string)>, s: Scenario, l': seq<(Key, string)>, t: Scenario)
    ensures Pair(ScenarioGauges(l, s), ScenarioGauges(l', t), 17, 22, l == l' && SharedGauge(s, t))
  {
    hide Maybe, Pair, Family.Rank;
    ScenarioRanks();
    var e := l == l';
    PairMaybe(StrategyRegistered, l, Flag(s.registered), l', Flag(t.registered));
    var ms, ns := Maybe(StrategyRegistered, l, Flag(s.registered)), Maybe(StrategyRegistered, l', Flag(t.registered));
    var met := e && Both(s.registered, t.registered);
    ms, ns := Add(ms, ns, 17, met, ActionTriggered, l, Flag(s.triggered), l', Flag(t.triggered));
    met := met || (e && Both(s.triggered, t.triggered));
    ms, ns := Add(ms, ns, 17, met, BarsSeen, l, Counted(s.barsSeen), l', Counted(t.barsSeen));
    met := met || (e && Both(s.barsSeen, t.barsSeen));
    ms, ns := Add(ms, ns, 17, met, OrdersSubmitted, l, Counted(s.orders), l', Counted(t.orders));
    met := met || (e && Both(s.orders, t.orders));
    ms, ns := Add(ms, ns, 17, met, Fills, l, Counted(s.fills), l', Counted(t.fills));
  }

  lemma SameScenarioLabels(runId: string, s: Scenario, runId': string, t: Scenario)
    requires Usable(s.name) && Usable(t.name)
    ensures ScenarioLabels(runId, s) == ScenarioLabels(runId', t) <==>
      runId == runId' && s.name == t.name && (if Usable(s.version) then s.version == t.version else !Usable(t.version))
  {
    hide Text.NonBlank;
    var l, l' := ScenarioLabels(runId, s), ScenarioLabels(runId', t);
    assert l[0] == (RunId, runId) && l[1] == (ScenarioName, s.name.value);
    assert l'[0] == (RunId, runId') && l'[1] == (ScenarioName, t.name.value);
    assert Usable(s.version) ==> |l| == 3 && l[2] == (ScenarioVersion, s.version.value);
    assert Usable(t.version) ==> |l'| == 3 && l'[2] == (ScenarioVersion, t.version.value);
    assert (|l| == 3 <==> Usable(s.version)) && (|l'| == 3 <==> Usable(t.version));
    assert l == l' <==> |l| == |l'| && forall i :: 0 <= i < |l| ==> l[i] == l'[i];
  }

  lemma PairScenario(runId: string, s: Scenario, runId': string, t: Scenario)
    ensures Pair(ScenarioMetrics(runId, s), ScenarioMetrics(runId', t), 17, 22, runId == runId' && SharedScenario(s, t))
  {
    hide Pair, Text.NonBlank, ScenarioGauges, ScenarioLabels;
    TidyScenario(runId, s);
    TidyScenario(runId', t);
    if !Usable(s.name) {
      PairNone(ScenarioMetrics(runId', t), 17, 22);
    } else if !Usable(t.name) {
      PairNone(ScenarioMetrics(runId, s), 17, 22);
    } else {
      PairScenarioGauges(ScenarioLabels(runId, s), s, ScenarioLabels(runId', t), t);
      SameScenarioLabels(runId, s, runId', t);
    }
  }

  lemma PairPaper(l: seq<(Key, string)>, f: Figures, l': seq<(Key, string)>, g: Figures)
    ensures Pair(PaperMetrics(l, f), PaperMetrics(l', g), 22, 24,
      l == l' && SharedPaper(f, g))
  {
    hide Maybe, Pair;
    PairMaybe(HeartbeatTotal, l, Counted(f.heartbeats), l', Counted(g.heartbeats));
    var ms, ns := Maybe(HeartbeatTotal, l, Counted(f.heartbeats)), Maybe(HeartbeatTotal, l', Counted(g.heartbeats));
    ms, ns := Add(ms, ns, 22, l == l' && Both(f.heartbeats, g.heartbeats), SyntheticDuration,
      l, Measured(f.syntheticSeconds), l', Measured(g.syntheticSeconds));
  }

  lemma SameExtended(core: seq<(Key, string)>, k: Key, v: string, core': seq<(Key, string)>, v': string)
    requires |core| == |core'|
    ensures core + [(k, v)] == core' + [(k, v')] <==> core == core' && v == v'
  {
    var l, l' := core + [(k, v)], core' + [(k, v')];
    assert l[|core|] == (k, v) && l'[|core|] == (k, v');
    assert core == l[..|core|] && core' == l'[..|core|];
  }

  /** Lists whose labels are the core labels and one more meet only if the core labels agree. */
  lemma MeetCore(ms: seq<Metric>, ns: seq<Metric>, core: seq<(Key, string)>, core': seq<(Key, string)>, k: Key,
                 names: seq<string>, names': seq<string>)
    requires |core| == |core'| && |ms| <= |names| && |ns| <= |names'|
    requires forall i :: 0 <= i < |ms| ==> ms[i].labels == core + [(k, names[i])]
    requires forall i :: 0 <= i < |ns| ==> ns[i].labels == core' + [(k, names'[i])]
    ensures Meet(ms, ns) ==> core == core'
  {
    if Meet(ms, ns) {
      var i, j :| 0 <= i < |ms| && 0 <= j < |ns| && !Apart(ms[i], ns[j]);
      SameExtended(core, k, names[i], core', names'[j]);
    }
  }

  lemma PairEvents(core: seq<(Key, string)>, names: seq<string>, counts: multiset<string>,
                   core': seq<(Key, string)>, names': seq<string>, counts': multiset<string>)
    returns (met: bool)
    requires |core| == |core'|
    ensures Pair(EventMetrics(core, names, counts), EventMetrics(core', names', counts'), 25, 26, met)
    ensures met ==> core == core'
  {
    hide Meet;
    var ms, ns := EventMetrics(core, names, counts), EventMetrics(core', names', counts');
    met := Meet(ms, ns);
    MeetCore(ms, ns, core, core', Event, names, names');
  }

  lemma PairJournal(core: seq<(Key, string)>, journal: seq<Option<string>>,
                    core': seq<(Key, string)>, journal': seq<Option<string>>)
    requires |core| == |core'|
    ensures Pair(JournalMetrics(core, journal), JournalMetrics(core', journal'), 24, 26, core == core')
  {
    hide Maybe, Pair, EventMetrics, EventNames, Names, Sorting.SortedStrings;
    var counts, counts' := multiset(EventNames(journal)), multiset(EventNames(journal'));
    var names, names' := Sorting.SortedStrings(Names(counts)), Sorting.SortedStrings(Names(counts'));
    PairMaybe(JournalEventsTotal, core, Number(|journal|), core', Number(|journal'|));
    var met := PairEvents(core, names, counts, core', names', counts');
    PairConcat(Maybe(JournalEventsTotal, core, Number(|journal|)), EventMetrics(core, names, counts),
      Maybe(JournalEventsTotal, core', Number(|journal'|)), EventMetrics(core', names', counts'),
      24, 25, 26, core == core', met);
  }

  lemma PairChecks(core: seq<(Key, string)>, s: Summary, core': seq<(Key, string)>, t: Summary, a: string, b: string)
    returns (met: bool)
    requires IsCore(core, a) && IsCore(core', b) && SummaryFault(s, 0).None? && SummaryFault(t, 0).None?
    ensures Pair(CheckMetrics(core, s, 4), CheckMetrics(core', t, 4), 27, 28, met)
    ensures met ==> core == core'
  {
    hide CheckMetrics, Tally, SummaryFault, Meet, InOrder, AllApart, OfRun, Numeric, SummaryPlain;
    forall k: nat | k < 4 ensures Tally(s, k).Some? && Tally(t, k).Some? {
      TalliesPresent(s, 0, k);
      TalliesPresent(t, 0, k);
    }
    TidyChecks(core, s, 4, a);
    TidyChecks(core', t, 4, b);
    ChecksTidy(core, s, a);
    ChecksTidy(core', t, b);
    var ms, ns := CheckMetrics(core, s, 4), CheckMetrics(core', t, 4);
    met := Meet(ms, ns);
    MeetCore(ms, ns, core, core', Severity, SEVERITIES, SEVERITIES);
  }

  lemma ReconciliationShape(r: ReconciliationFile, stamper: Stamper)
    requires ReconciliationFault(r).None?
    ensures r.summary.Some? && SummaryFault(r.summary.value, 0).None? && Stamped(r.stamp, stamper).Some?
  {
    hide SummaryFault;
  }

  lemma ThreePairs(a: seq<Metric>, b: seq<Metric>, c: seq<Metric>, a': seq<Metric>, b': seq<Metric>, c': seq<Metric>,
                   lo: nat, p: bool, q: bool, r: bool)
    requires Pair(a, a', lo, lo + 1, p) && Pair(b, b', lo + 1, lo + 2, q) && Pair(c, c', lo + 2, lo + 3, r)
    ensures Pair(a + b + c, a' + b' + c', lo, lo + 3, p || q || r)
  {
    hide Pair;
    PairConcat(a, b, a', b', lo, lo + 1, lo + 2, p, q);
    PairConcat(a + b, c, a' + b', c', lo, lo + 2, lo + 3, p || q, r);
  }

  lemma ReconciliationRanks()
    ensures ReconciliationStatus.Rank() == 26 && ReconciliationTimestamp.Rank() == 28
  {
  }

  lemma PairReconciliation(core: seq<(Key, string)>, r: ReconciliationFile, core': seq<(Key, string)>,
                           r': ReconciliationFile, stamper: Stamper, a: string, b: string)
    requires IsCore(core, a) && IsCore(core', b) && ReconciliationFault(r).None? && ReconciliationFault(r').None?
    ensures Pair(ReconciliationMetrics(core, r, stamper), ReconciliationMetrics(core', r', stamper), 26, 29,
      core == core')
  {
    ReconciliationShape(r, stamper);
    ReconciliationShape(r', stamper);
    assert |core| == |core'| && Number(1).Some?;
    hide Maybe, Pair, CheckMetrics, SummaryFault, ReconciliationFault, Stamped, Number, IsCore, Family.Rank;
    ReconciliationRanks();
    SameExtended(core, Status, r.status, core', r'.status);
    PairMaybe(ReconciliationStatus, core + [(Status, r.status)], Number(1), core' + [(Status, r'.status)], Number(1));
    var met := PairChecks(core, r.summary.value, core', r'.summary.value, a, b);
    var at, at' := Stamped(r.stamp, stamper), Stamped(r'.stamp, stamper);
    PairMaybe(ReconciliationTimestamp, core, at, core', at');
    ThreePairs(Maybe(ReconciliationStatus, core + [(Status, r.status)], Number(1)),
      CheckMetrics(core, r.summary.value, 4), Maybe(ReconciliationTimestamp, core, at),
      Maybe(ReconciliationStatus, core' + [(Status, r'.status)], Number(1)),
      CheckMetrics(core', r'.summary.value, 4), Maybe(ReconciliationTimestamp, core', at'),
      26, core == core' && r.status == r'.status, met, core == core');
  }

  lemma SameDrillLabels(x: string, d: DrillFile, y: string, e: DrillFile)
    requires Usable(d.name) && Usable(e.name)
    ensures DrillLabels(x, d) == DrillLabels(y, e) <==> x == y && SameDrill(d, e)
  {
    hide Text.NonBlank, Text.Strip;
    var l, l' := DrillLabels(x, d), DrillLabels(y, e);
    assert l[0] == (RunId, x) && l[1] == (DrillName, Text.Strip(d.name.value));
    assert l'[0] == (RunId, y) && l'[1] == (DrillName, Text.Strip(e.name.value));
  }

  lemma PairDrills(x: string, ds: seq<DrillFile>, y: string, es: seq<DrillFile>)
    ensures Pair(AllDrillMetrics(x, ds), AllDrillMetrics(y, es), 29, 30, x == y && SharedDrill(ds, es))
  {
    hide AllDrillMetrics, Text.NonBlank, DrillLabels, InOrder;
    DrillsApart(x, ds);
    DrillsApart(y, es);
    var ms, ns := AllDrillMetrics(x, ds), AllDrillMetrics(y, es);
    if Meet(ms, ns) {
      var p, q :| 0 <= p < |ms| && 0 <= q < |ns| && !Apart(ms[p], ns[q]);
      var i := DrillOrigin(x, ds, p);
      var j := DrillOrigin(y, es, q);
      SameDrillLabels(x, ds[i], y, es[j]);
    }
    if x == y && SharedDrill(ds, es) {
      var i, j :| 0 <= i < |ds| && 0 <= j < |es| && SameDrill(ds[i], es[j]);
      DrillAt(x, ds, i);
      DrillAt(y, es, j);
      SameDrillLabels(x, ds[i], y, es[j]);
      MeetAt(ms, ns, |AllDrillMetrics(x, ds[..i])|, |AllDrillMetrics(y, es[..j])|);
    }
  }

  // ---------------------------------------------------------------- whole runs

  lemma SameProbeLabels(core: seq<(Key, string)>, p: ProbeFile, core': seq<(Key, string)>, q: ProbeFile)
    requires |core| == |core'| && ProbeFault(p).None? && ProbeFault(q).None?
    ensures ProbeLabels(core, p) == ProbeLabels(core', q) <==> core == core' && SameProbe(p, q)
  {
    hide Text.NonBlank;
    var n, l, l' := |core|, ProbeLabels(core, p), ProbeLabels(core', q);
    assert l[..n] == core && l'[..n] == core';
    assert l[n] == (State, p.state.value) && l[n + 1] == (NetworkScope, p.scope.value);
    assert l'[n] == (State, q.state.value) && l'[n + 1] == (NetworkScope, q.scope.value);
    assert p.errorClass.Present? ==> |l| == n + 3 && l[n + 2] == (ErrorClass, p.errorClass.value);
    assert q.errorClass.Present? ==> |l'| == n + 3 && l'[n + 2] == (ErrorClass, q.errorClass.value);
    assert (|l| == n + 3 <==> p.errorClass.Present?) && (|l'| == n + 3 <==> q.errorClass.Present?);
  }

  /** Sections that either side may lack. */
  lemma PairOptional(ms: seq<Metric>, ns: seq<Metric>, here: bool, there: bool, lo: nat, hi: nat, met: bool)
    requires InOrder(ms, lo, hi) && InOrder(ns, lo, hi)
    requires (!here ==> ms == []) && (!there ==> ns == []) && (here && there ==> Pair(ms, ns, lo, hi, met))
    ensures Pair(ms, ns, lo, hi, here && there && met)
  {
    hide InOrder;
    MeetNothing(ms);
    MeetNothing(ns);
  }

  lemma PairReadinessFiles(core: seq<(Key, string)>, a: Artifacts, core': seq<(Key, string)>, b: Artifacts,
                           x: string, y: string)
    requires StateFault(a).None? && StateFault(b).None? && IsCore(core, x) && IsCore(core', y)
    ensures Pair(if a.readiness.Some? then ReadinessMetrics(core, a.readiness.value) else [],
      if b.readiness.Some? then ReadinessMetrics(core', b.readiness.value) else [], 1, 5,
      core == core' && SharedReadiness(a, b))
  {
    hide Pair, ReadinessGauges, Text.NonBlank, InOrder, AllApart, OfRun, Numeric, Labelled, IsTruth;
    var ms, ns: seq<Metric> := [], [];
    TidyNone(1, 5, x);
    if a.readiness.Some? {
      var r := a.readiness.value;
      CoreWith(core, x, State, r.state.value);
      TidyReadiness(core + [(State, r.state.value)], r, x);
      ms := ReadinessMetrics(core, r);
    }
    if b.readiness.Some? {
      var r := b.readiness.value;
      CoreWith(core', y, State, r.state.value);
      TidyReadiness(core' + [(State, r.state.value)], r, y);
      ns := ReadinessMetrics(core', r);
      if a.readiness.Some? {
        var q := a.readiness.value;
        PairReadiness(core + [(State, q.state.value)], q, core' + [(State, r.state.value)], r);
        SameExtended(core, State, q.state.value, core', r.state.value);
      }
    }
    PairOptional(ms, ns, a.readiness.Some?, b.readiness.Some?, 1, 5, core == core' && SharedReadiness(a, b));
  }

  lemma PairProbeFiles(core: seq<(Key, string)>, a: Artifacts, core': seq<(Key, string)>, b: Artifacts,
                       x: string, y: string)
    requires StateFault(a).None? && StateFault(b).None? && IsCore(core, x) && IsCore(core', y)
    ensures Pair(if a.probe.Some? then ProbeMetrics(core, a.probe.value) else [],
      if b.probe.Some? then ProbeMetrics(core', b.probe.value) else [], 5, 9, core == core' && SharedProbe(a, b))
  {
    hide Pair, ProbeGauges, ProbeLabels, Text.NonBlank, InOrder, AllApart, OfRun, Numeric, Labelled, ProbePlain;
    var ms, ns: seq<Metric> := [], [];
    TidyNone(5, 9, x);
    if a.probe.Some? {
      ProbeLabelled(core, x, a.probe.value);
      TidyProbe(ProbeLabels(core, a.probe.value), a.probe.value, x);
      ms := ProbeMetrics(core, a.probe.value);
    }
    if b.probe.Some? {
      ProbeLabelled(core', y, b.probe.value);
      TidyProbe(ProbeLabels(core', b.probe.value), b.probe.value, y);
      ns := ProbeMetrics(core', b.probe.value);
      if a.probe.Some? {
        PairProbe(ProbeLabels(core, a.probe.value), a.probe.value, ProbeLabels(core', b.probe.value), b.probe.value);
        SameProbeLabels(core, a.probe.value, core', b.probe.value);
      }
    }
    PairOptional(ms, ns, a.probe.Some?, b.probe.Some?, 5, 9, core == core' && SharedProbe(a, b));
  }

  lemma PairConnectivity(a: Artifacts, b: Artifacts)
    requires StateFault(a).None? && StateFault(b).None?
    ensures Pair(ConnectivityMetrics(a), ConnectivityMetrics(b), 1, 9,
      CoreLabels(a) == CoreLabels(b) && (SharedReadiness(a, b) || SharedProbe(a, b)))
  {
    hide Pair, CoreLabels, ReadinessMetrics, ProbeMetrics, ReadinessFault, ProbeFault, SharedReadiness, SharedProbe;
    hide RunIdOf, IsCore;
    var c, d := CoreLabels(a), CoreLabels(b);
    CoreShape(a);
    CoreShape(b);
    PairReadinessFiles(c, a, d, b, RunIdOf(a), RunIdOf(b));
    PairProbeFiles(c, a, d, b, RunIdOf(a), RunIdOf(b));
    PairConcat(if a.readiness.Some? then ReadinessMetrics(c, a.readiness.value) else [],
      if a.probe.Some? then ProbeMetrics(c, a.probe.value) else [],
      if b.readiness.Some? then ReadinessMetrics(d, b.readiness.value) else [],
      if b.probe.Some? then ProbeMetrics(d, b.probe.value) else [],
      1, 5, 9, c == d && SharedReadiness(a, b), c == d && SharedProbe(a, b));
  }

  lemma PairResults(a: Artifacts, b: Artifacts, stamper: Stamper)
    ensures Pair(ResultMetrics(a, stamper), ResultMetrics(b, stamper), 9, 24,
      (CoreLabels(a) == CoreLabels(b) && SharedResult(a, b)) || (RunIdOf(a) == RunIdOf(b) && SharedNamed(a, b)))
  {
    hide Pair, CoreLabels, RunIdOf, KillSwitchMetrics, TimeMetrics, BacktestMetrics, ScenarioMetrics, PaperMetrics;
    hide SharedSwitch, SharedTime, SharedBacktest, SharedScenario, SharedPaper;
    var c, d, x, y := CoreLabels(a), CoreLabels(b), RunIdOf(a), RunIdOf(b);
    var f, g := a.figures, b.figures;
    PairSwitch(x, a.metadata.killSwitch, y, b.metadata.killSwitch);
    PairTimes(c, a.metadata, d, b.metadata, stamper);
    PairBacktest(c, f, d, g);
    PairScenario(x, f.scenario, y, g.scenario);
    PairPaper(c, f, d, g);
    var ms, ns := KillSwitchMetrics(x, a.metadata.killSwitch), KillSwitchMetrics(y, b.metadata.killSwitch);
    var met := x == y && SharedSwitch(a.metadata.killSwitch, b.metadata.killSwitch);
    PairConcat(ms, TimeMetrics(c, a.metadata, stamper), ns, TimeMetrics(d, b.metadata, stamper), 9, 10, 14,
      met, c == d && SharedTime(a.metadata, b.metadata));
    ms, ns := ms + TimeMetrics(c, a.metadata, stamper), ns + TimeMetrics(d, b.metadata, stamper);
    met := met || (c == d && SharedTime(a.metadata, b.metadata));
    PairConcat(ms, BacktestMetrics(c, f), ns, BacktestMetrics(d, g), 9, 14, 17, met, c == d && SharedBacktest(f, g));
    ms, ns := ms + BacktestMetrics(c, f), ns + BacktestMetrics(d, g);
    met := met || (c == d && SharedBacktest(f, g));
    PairConcat(ms, ScenarioMetrics(x, f.scenario), ns, ScenarioMetrics(y, g.scenario), 9, 17, 22,
      met, x == y && SharedScenario(f.scenario, g.scenario));
    ms, ns := ms + ScenarioMetrics(x, f.scenario), ns + ScenarioMetrics(y, g.scenario);
    met := met || (x == y && SharedScenario(f.scenario, g.scenario));
    PairConcat(ms, PaperMetrics(c, f), ns, PaperMetrics(d, g), 9, 22, 24, met, c == d && SharedPaper(f, g));
  }

  lemma PairRecords(a: Artifacts, b: Artifacts, stamper: Stamper)
    requires RecordFault(a).None? && RecordFault(b).None?
    ensures Pair(RecordMetrics(a, stamper), RecordMetrics(b, stamper), 24, 29,
      CoreLabels(a) == CoreLabels(b) && SharedJournal(a, b))
  {
    hide Pair, CoreLabels, RunIdOf, JournalMetrics, ReconciliationMetrics, SummaryFault, SummaryPlain;
    hide InOrder, AllApart, OfRun, Numeric;
    var c, d, x, y := CoreLabels(a), CoreLabels(b), RunIdOf(a), RunIdOf(b);
    CoreShape(a);
    CoreShape(b);
    TidyNone(24, 26, x);
    TidyNone(26, 29, x);
    TidyJournal(c, a.journal, x);
    TidyJournal(d, b.journal, y);
    PairJournal(c, a.journal, d, b.journal);
    var j := if a.includeJournal then JournalMetrics(c, a.journal) else [];
    var k := if b.includeJournal then JournalMetrics(d, b.journal) else [];
    PairOptional(j, k, a.includeJournal, b.includeJournal, 24, 26, c == d);
    var ms := if a.reconciliation.Some? then ReconciliationMetrics(c, a.reconciliation.value, stamper) else [];
    var ns := if b.reconciliation.Some? then ReconciliationMetrics(d, b.reconciliation.value, stamper) else [];
    if a.reconciliation.Some? {
      TidyReconciliation(c, a.reconciliation.value, stamper, x);
    }
    if b.reconciliation.Some? {
      TidyReconciliation(d, b.reconciliation.value, stamper, y);
      if a.reconciliation.Some? {
        PairReconciliation(c, a.reconciliation.value, d, b.reconciliation.value, stamper, x, y);
      }
    }
    PairOptional(ms, ns, a.reconciliation.Some?, b.reconciliation.Some?, 26, 29, c == d);
    PairConcat(j, ms, k, ns, 24, 26, 29, a.includeJournal && b.includeJournal && c == d,
      a.reconciliation.Some? && b.reconciliation.Some? && c == d);
  }

  /** Two runs, whatever their ids, share a series if and only if they clash. */
  lemma ClashExact(a: Artifacts, b: Artifacts, stamper: Stamper)
    requires RunFault(a).None? && RunFault(b).None?
    ensures Meet(RunMetrics.RunMetrics(a, stamper), RunMetrics.RunMetrics(b, stamper)) <==> Clashes(a, b)
  {
    hide Meet, InOrder, CoreLabels, InfoLabels, RunIdOf, ConnectivityMetrics, ResultMetrics, RecordMetrics;
    hide AllDrillMetrics, Maybe, StateFault, RecordFault, SharedDrill, SharedSwitch, SharedScenario, SharedTime;
    hide SharedBacktest, SharedPaper, SharedReadiness, SharedProbe;
    var l, l', one := InfoLabels(a), InfoLabels(b), Number(1);
    var c, x := CoreLabels(a) == CoreLabels(b), RunIdOf(a) == RunIdOf(b);
    PairMaybe(RunInfo, l, one, l', one);
    PairConnectivity(a, b);
    PairResults(a, b, stamper);
    PairRecords(a, b, stamper);
    PairDrills(RunIdOf(a), a.drills, RunIdOf(b), b.drills);
    var ms, ns := Maybe(RunInfo, l, one), Maybe(RunInfo, l', one);
    var met := l == l';
    hide Pair;
    PairConcat(ms, ConnectivityMetrics(a), ns, ConnectivityMetrics(b), 0, 1, 9,
      met, c && (SharedReadiness(a, b) || SharedProbe(a, b)));
    ms, ns := ms + ConnectivityMetrics(a), ns + ConnectivityMetrics(b);
    met := met || (c && (SharedReadiness(a, b) || SharedProbe(a, b)));
    PairConcat(ms, ResultMetrics(a, stamper), ns, ResultMetrics(b, stamper), 0, 9, 24,
      met, (c && SharedResult(a, b)) || (x && SharedNamed(a, b)));
    ms, ns := ms + ResultMetrics(a, stamper), ns + ResultMetrics(b, stamper);
    met := met || (c && SharedResult(a, b)) || (x && SharedNamed(a, b));
    PairConcat(ms, RecordMetrics(a, stamper), ns, RecordMetrics(b, stamper), 0, 24, 29, met, c && SharedJournal(a, b));
    ms, ns := ms + RecordMetrics(a, stamper), ns + RecordMetrics(b, stamper);
    met := met || (c && SharedJournal(a, b));
    PairConcat(ms, AllDrillMetrics(RunIdOf(a), a.drills), ns, AllDrillMetrics(RunIdOf(b), b.drills), 0, 29, 30,
      met, x && SharedDrill(a.drills, b.drills));
    PairMet(RunMetrics.RunMetrics(a, stamper), RunMetrics.RunMetrics(b, stamper), 0, 30,
      met || (x && SharedDrill(a.drills, b.drills)));
  }

  lemma PairMet(ms: seq<Metric>, ns: seq<Metric>, lo: nat, hi: nat, met: bool)
    requires Pair(ms, ns, lo, hi, met)
    ensures met == Meet(ms, ns)
  {
  }

  lemma ClashNeedsRunId(a: Artifacts, b: Artifacts)
    requires Clashes(a, b)
    ensures RunIdOf(a) == RunIdOf(b)
  {
    CoreShape(a);
    CoreShape(b);
    assert InfoLabels(a)[0] == CoreLabels(a)[0] && InfoLabels(b)[0] == CoreLabels(b)[0];
  }
}
