/** Unique series and grouping over the whole metrics document: exactly when it keeps the format's rules. */
module DocumentSeries {
  import opened Decimals
  import opened MetricNames
  import opened MetricSeries
  import opened RunMetrics
  import opened RunSeries
  import opened RunDocument
  import opened RunClash
  import opened EvidenceDocument
  import opened MetricsDocument
  import Sorting

  // ---------------------------------------------------------------- unique series

  /** The run ids the metadata files give, not the directory names. */
  predicate DistinctRunIds(runs: seq<Artifacts>) {
    forall i, j :: 0 <= i < j < |runs| ==> RunIdOf(runs[i]) != RunIdOf(runs[j])
  }

  predicate AllDistinctDrills(runs: seq<Artifacts>) {
    forall i :: 0 <= i < |runs| ==> DistinctDrills(runs[i].drills)
  }

  predicate NoClash(runs: seq<Artifacts>) {
    forall i, j :: 0 <= i < j < |runs| ==> !Clashes(runs[i], runs[j])
  }

  /** Labels in order, and no family of the evidence part. */
  predicate WithoutEvidence(ms: seq<Metric>) {
    Keyed(ms) && forall p :: 0 <= p < |ms| ==> ms[p].family.Rank() < 30
  }

  lemma WithoutEvidenceConcat(ms: seq<Metric>, ns: seq<Metric>)
    requires WithoutEvidence(ms) && WithoutEvidence(ns)
    ensures WithoutEvidence(ms + ns)
  {
    hide Family.Rank, Ordered;
  }

  lemma RunWithoutEvidence(a: Artifacts, stamper: Stamper)
    requires RunFault(a).None?
    ensures WithoutEvidence(RunMetrics.RunMetrics(a, stamper))
  {
    hide RunMetrics.RunMetrics, RunFault, AllApart, Numeric, PlainCounts, RunIdOf, Family.Rank, DistinctDrills;
    RunApart(a, stamper);
    OfRunKeyed(RunMetrics.RunMetrics(a, stamper), RunIdOf(a));
    hide OfRun, Keyed;
  }

  lemma {:induction false} RunsWithoutEvidence(runs: seq<Artifacts>, stamper: Stamper)
    requires Sound(runs)
    ensures WithoutEvidence(RunsEmitted(runs, stamper))
  {
    hide RunMetrics.RunMetrics, RunFault, WithoutEvidence;
    if runs == [] {
      assert WithoutEvidence([]) by { NothingWithoutEvidence(); }
    } else {
      var front, last := runs[..|runs| - 1], runs[|runs| - 1];
      RunsWithoutEvidence(front, stamper);
      RunWithoutEvidence(last, stamper);
      WithoutEvidenceConcat(RunsEmitted(front, stamper), RunMetrics.RunMetrics(last, stamper));
    }
  }

  lemma NothingWithoutEvidence()
    ensures WithoutEvidence([])
  {
  }

  /** The lines of one run meet those of the runs before it if and only if it clashes with one of them. */
  lemma {:induction false} RunsMeet(runs: seq<Artifacts>, a: Artifacts, stamper: Stamper)
    requires Sound(runs) && RunFault(a).None?
    ensures Meet(RunsEmitted(runs, stamper), RunMetrics.RunMetrics(a, stamper)) <==>
      exists i :: 0 <= i < |runs| && Clashes(runs[i], a)
  {
    hide RunMetrics.RunMetrics, RunFault, Meet, Clashes;
    if runs == [] {
      MeetNothing(RunMetrics.RunMetrics(a, stamper));
    } else {
      var n := |runs| - 1;
      var front := runs[..n];
      RunsMeet(front, a, stamper);
      ClashExact(runs[n], a, stamper);
      MeetLeft(RunsEmitted(front, stamper), RunMetrics.RunMetrics(runs[n], stamper), RunMetrics.RunMetrics(a, stamper));
      assert forall i :: 0 <= i < n ==> runs[i] == front[i];
      if i :| 0 <= i < n && Clashes(front[i], a) {
        assert Clashes(runs[i], a);
      }
    }
  }

  lemma ApartParts(ms: seq<Metric>, ns: seq<Metric>)
    ensures AllApart(ms + ns) <==> AllApart(ms) && AllApart(ns) && !Meet(ms, ns)
  {
    hide Apart;
    var all := ms + ns;
    assert forall i :: 0 <= i < |ms| ==> all[i] == ms[i];
    assert forall i :: 0 <= i < |ns| ==> ns[i] == all[|ms| + i];
    if AllApart(all) {
      forall i, j | 0 <= i < j < |ns| ensures Apart(ns[i], ns[j]) { assert Apart(all[|ms| + i], all[|ms| + j]); }
      forall i, j | 0 <= i < |ms| && 0 <= j < |ns| ensures Apart(ms[i], ns[j]) { assert Apart(all[i], all[|ms| + j]); }
    }
    if AllApart(ms) && AllApart(ns) && !Meet(ms, ns) {
      ApartConcat(ms, ns);
    }
  }

  lemma {:induction false} RunsApart(runs: seq<Artifacts>, stamper: Stamper)
    requires Sound(runs)
    ensures AllApart(RunsEmitted(runs, stamper)) <==> AllDistinctDrills(runs) && NoClash(runs)
  {
    hide RunMetrics.RunMetrics, RunFault, AllApart, Meet, Clashes, DistinctDrills;
    if runs == [] {
      assert AllApart([]) by { NoneApart(); }
    } else {
      var n := |runs| - 1;
      var front, a := runs[..n], runs[n];
      RunsApart(front, stamper);
      RunAllApart(a, stamper);
      RunsMeet(front, a, stamper);
      ApartParts(RunsEmitted(front, stamper), RunMetrics.RunMetrics(a, stamper));
      assert forall i :: 0 <= i < n ==> runs[i] == front[i];
      assert AllDistinctDrills(runs) <==> AllDistinctDrills(front) && DistinctDrills(a.drills);
      assert NoClash(runs) <==> NoClash(front) && forall i :: 0 <= i < n ==> !Clashes(front[i], a);
    }
  }

  lemma NoneApart()
    ensures AllApart([])
  {
  }

  lemma EvidenceShownNeat(r: Request)
    ensures Neat(EvidenceShown(r), 30, 35)
  {
    hide Neat, EvidenceEmitted;
    NothingTidy();
    if r.evidence.Some? {
      EvidenceAsLines(r.evidence.value);
    }
  }

  lemma EvidenceNeverMeets(ms: seq<Metric>, ns: seq<Metric>)
    requires WithoutEvidence(ms) && Neat(ns, 30, 35)
    ensures !Meet(ms, ns) && AllApart(ns) && Keyed(ms + ns)
    ensures forall i, j :: 0 <= i < |ms| && 0 <= j < |ns| ==> ms[i].family != ns[j].family
  {
    hide Family.Rank, Ordered, IsBool, AllApart;
  }

  /** Main result on series: no two samples of a document share name and label set if and only if no two
      rendered runs clash and within each run the stripped drill names differ. */
  lemma DocumentUniqueExact(r: Request, store: Store, stamper: Stamper)
    ensures UniqueSeries(Samples(Emitted(r, store, stamper))) <==>
      AllDistinctDrills(Shown(r, store)) && NoClash(Shown(r, store))
  {
    hide Shown, RunFault, RunMetrics.RunMetrics, EvidenceShown, UniqueSeries, Samples, AllApart, WithoutEvidence;
    hide Meet, Neat, AllDistinctDrills, NoClash, RunsEmitted, Keyed;
    ShownSound(r, store);
    var runs, ms, ns := Shown(r, store), RunsEmitted(Shown(r, store), stamper), EvidenceShown(r);
    RunsWithoutEvidence(runs, stamper);
    EvidenceShownNeat(r);
    EvidenceNeverMeets(ms, ns);
    RunsApart(runs, stamper);
    ApartParts(ms, ns);
    ApartUnique(ms + ns);
  }

  /** With pairwise distinct run ids no two runs clash, so only the drill names matter. */
  lemma DocumentUnique(r: Request, store: Store, stamper: Stamper)
    requires DistinctRunIds(Shown(r, store))
    ensures UniqueSeries(Samples(Emitted(r, store, stamper))) <==> AllDistinctDrills(Shown(r, store))
  {
    hide Shown, Emitted, Samples, UniqueSeries, Clashes, RunIdOf, DistinctDrills;
    var runs := Shown(r, store);
    DocumentUniqueExact(r, store, stamper);
    forall i, j | 0 <= i < j < |runs| ensures !Clashes(runs[i], runs[j]) {
      if Clashes(runs[i], runs[j]) {
        ClashNeedsRunId(runs[i], runs[j]);
      }
    }
  }

  /** Two rendered runs that agree on all labels of the info gauge, as copies of one run do, clash. */
  lemma CopiesClash(r: Request, store: Store, stamper: Stamper, i: nat, j: nat)
    requires i < j < |Shown(r, store)| && InfoLabels(Shown(r, store)[i]) == InfoLabels(Shown(r, store)[j])
    ensures !UniqueSeries(Samples(Emitted(r, store, stamper)))
  {
    hide Shown, Emitted, Samples, UniqueSeries, InfoLabels, AllDistinctDrills;
    DocumentUniqueExact(r, store, stamper);
    assert Clashes(Shown(r, store)[i], Shown(r, store)[j]);
  }

  /** So does a copy of which only the status was edited, as long as the journal is shown. */
  lemma EditedCopyClashes(a: Artifacts, status: Option<string>)
    requires a.includeJournal
    ensures Clashes(a, a.(metadata := a.metadata.(status := status)))
  {
    var b := a.(metadata := a.metadata.(status := status));
    assert CoreLabels(a) == CoreLabels(b);
    hide InfoLabels, CoreLabels;
  }

  lemma ClashSymmetric(a: Artifacts, b: Artifacts)
    requires Clashes(a, b)
    ensures Clashes(b, a)
  {
    hide InfoLabels, CoreLabels, RunIdOf, Usable, Text.Strip, KillSwitchText;
  }

  /** Where the run of a directory is rendered. */
  lemma {:induction false} RenderedAt(ids: seq<string>, store: Store, p: nat)
    requires forall id <- ids :: id in store
    requires p < |ids| && Renders(store[ids[p]])
    ensures |Rendering(ids[..p], store)| < |Rendering(ids, store)|
    ensures Rendering(ids, store)[|Rendering(ids[..p], store)|] == store[ids[p]].artifacts
  {
    hide RunFault;
    var n := |ids| - 1;
    if p < n {
      RenderedAt(ids[..n], store, p);
      assert ids[..n][..p] == ids[..p];
    }
  }

  lemma RenderedInOrder(ids: seq<string>, store: Store, p: nat, q: nat) returns (i: nat, j: nat)
    requires forall id <- ids :: id in store
    requires p < q < |ids| && Renders(store[ids[p]]) && Renders(store[ids[q]])
    ensures var runs := Rendering(ids, store);
      i < j < |runs| && runs[i] == store[ids[p]].artifacts && runs[j] == store[ids[q]].artifacts
  {
    hide RunFault, Rendering;
    i, j := |Rendering(ids[..p], store)|, |Rendering(ids[..q], store)|;
    RenderedAt(ids, store, p);
    RenderedAt(ids, store, q);
    RenderedAt(ids[..q], store, p);
    assert ids[..q][..p] == ids[..p];
  }

  /** In a document of all runs, two directories whose runs are rendered and clash repeat a series. */
  lemma ClashShown(r: Request, store: Store, stamper: Stamper, x: string, y: string)
    requires r.selected.None? && x in store && y in store && x != y
    requires Renders(store[x]) && Renders(store[y]) && Clashes(store[x].artifacts, store[y].artifacts)
    ensures !UniqueSeries(Samples(Emitted(r, store, stamper)))
  {
    hide Emitted, Samples, UniqueSeries, AllDistinctDrills, Clashes, RunFault, Rendering, Sorting.SortedStrings;
    var ids := Sorting.SortedStrings(store.Keys);
    Sorting.SortedStringsShape(store.Keys);
    DocumentUniqueExact(r, store, stamper);
    ClashSymmetric(store[x].artifacts, store[y].artifacts);
    var p :| 0 <= p < |ids| && ids[p] == x;
    var q :| 0 <= q < |ids| && ids[q] == y;
    var i, j := RenderedInOrder(ids, store, if p < q then p else q, if p < q then q else p);
    assert Clashes(Shown(r, store)[i], Shown(r, store)[j]);
  }

  /** A run directory copied under another name repeats a series, whatever else is there: any run whose
      metadata.json gives a run id, and if the journal is shown also when the copy's status was edited. */
  lemma CopiedRun(r: Request, store: Store, stamper: Stamper, x: string, y: string, status: Option<string>)
    requires r.selected.None? && x in store && y in store && x != y && Renders(store[x])
    requires store[x].artifacts.metadata.runId.Some?
    requires store[x].artifacts.includeJournal || status == store[x].artifacts.metadata.status
    requires var a := store[x].artifacts;
      store[y] == Readable(a.(directory := y, metadata := a.metadata.(status := status)))
    ensures !UniqueSeries(Samples(Emitted(r, store, stamper)))
  {
    hide Emitted, Samples, UniqueSeries;
    RenderedCopy(store[x].artifacts, y, status);
    ClashShown(r, store, stamper, x, y);
  }

  lemma RenderedCopy(a: Artifacts, directory: string, status: Option<string>)
    requires RunFault(a).None? && a.metadata.runId.Some? && (a.includeJournal || status == a.metadata.status)
    ensures var b := a.(directory := directory, metadata := a.metadata.(status := status));
      RunFault(b).None? && Clashes(a, b)
  {
    var b := a.(directory := directory, metadata := a.metadata.(status := status));
    assert CoreLabels(a) == CoreLabels(b);
  }

  /** The least such store: one run under two names. */
  lemma TwoNames(stamper: Stamper)
    ensures var a := Bare("a", []);
      var run := a.(metadata := a.metadata.(runId := Some("r")));
      var r, store := Request("runs", None, None), map["a" := Readable(run), "b" := Readable(run.(directory := "b"))];
      !UniqueSeries(Samples(Emitted(r, store, stamper)))
  {
    hide Emitted, Samples, UniqueSeries;
    var a := Bare("a", []);
    var run := a.(metadata := a.metadata.(runId := Some("r")));
    var r, store := Request("runs", None, None), map["a" := Readable(run), "b" := Readable(run.(directory := "b"))];
    assert "a" != "b";
    CopiedRun(r, store, stamper, "a", "b", run.metadata.status);
  }

  // ---------------------------------------------------------------- one group a family

  /** Where the metrics of a rendered run start. */
  lemma {:induction false} RunAt(runs: seq<Artifacts>, stamper: Stamper, i: nat)
    requires Sound(runs) && i < |runs|
    ensures var all, p, ms := RunsEmitted(runs, stamper), |RunsEmitted(runs[..i], stamper)|,
        RunMetrics.RunMetrics(runs[i], stamper);
      p + |ms| <= |all| && all[p..p + |ms|] == ms
    ensures |RunsEmitted(runs[..i], stamper)| + |RunMetrics.RunMetrics(runs[i], stamper)|
      == |RunsEmitted(runs[..i + 1], stamper)|
  {
    hide RunMetrics.RunMetrics, RunFault;
    var n := |runs| - 1;
    assert runs[..i + 1][..i] == runs[..i];
    if i == n {
      assert runs[..n + 1] == runs;
    } else {
      RunAt(runs[..n], stamper, i);
      assert runs[..n][..i] == runs[..i];
    }
  }

  /** The info gauge comes first and is the only one of its family in a run. */
  lemma InfoFirst(a: Artifacts, stamper: Stamper)
    requires RunFault(a).None?
    ensures var ms := RunMetrics.RunMetrics(a, stamper);
      && |ms| >= 1 && ms[0] == Metric(RunInfo, InfoLabels(a), Integral(IntCount(1)))
      && (forall p :: 1 <= p < |ms| ==> ms[p].family != RunInfo)
  {
    hide InfoLabels, ConnectivityMetrics, ResultMetrics, RecordMetrics, AllDrillMetrics, OfRun, AllApart;
    hide Numeric, RunIdOf, ConnectivityPlain, ResultsPlain, RecordsPlain, Family.Rank, StateFault, RecordFault;
    TidyConnectivity(a);
    TidyResults(a, stamper);
    TidyRecords(a, stamper);
    DrillsApart(RunIdOf(a), a.drills);
    assert RunInfo.Rank() == 0 by { InfoRank(); }
    var info, b, c := Maybe(RunInfo, InfoLabels(a), Number(1)), ConnectivityMetrics(a), ResultMetrics(a, stamper);
    var d, e := RecordMetrics(a, stamper), AllDrillMetrics(RunIdOf(a), a.drills);
    NotInfo(b, 1, 9);
    NotInfo(c, 9, 24);
    NotInfo(d, 24, 29);
    NotInfo(e, 29, 30);
    assert RunMetrics.RunMetrics(a, stamper) == info + (b + c + d + e) by { Associative(); }
    InfoThenRest(info[0], b, c, d, e);
  }

  lemma NotInfo(ms: seq<Metric>, lo: nat, hi: nat)
    requires InOrder(ms, lo, hi) && lo > 0
    ensures forall m <- ms :: m.family != RunInfo
  {
    hide Family.Rank;
    InfoRank();
  }

  lemma InfoThenRest(info: Metric, b: seq<Metric>, c: seq<Metric>, d: seq<Metric>, e: seq<Metric>)
    requires (forall m <- b :: m.family != RunInfo) && (forall m <- c :: m.family != RunInfo)
    requires (forall m <- d :: m.family != RunInfo) && (forall m <- e :: m.family != RunInfo)
    ensures var ms := [info] + (b + c + d + e); forall p :: 1 <= p < |ms| ==> ms[p].family != RunInfo
  {
    var rest := b + c + d + e;
    assert forall m <- rest :: m in b || m in c || m in d || m in e;
    assert forall p :: 1 <= p < 1 + |rest| ==> ([info] + rest)[p] == rest[p - 1] && rest[p - 1] in rest;
  }

  lemma InfoRank()
    ensures RunInfo.Rank() == 0
  {
  }

  /** Nothing of the run is known but its labels. */
  predicate InfoOnly(a: Artifacts) {
    NoConnectivity(a) && NoResults(a) && !a.includeJournal && a.reconciliation.None? && NoDrills(a.drills)
  }

  predicate NoConnectivity(a: Artifacts) {
    a.readiness.None? && a.probe.None?
  }

  predicate NoResults(a: Artifacts) {
    var m, f := a.metadata, a.figures;
    && m.killSwitch.None? && m.created.None? && m.started.None? && m.completed.None?
    && f.candles.None? && f.bars.None? && f.engineSeconds.None? && f.heartbeats.None? && f.syntheticSeconds.None?
    && NoScenario(f.scenario)
  }

  predicate NoScenario(s: Scenario) {
    Usable(s.name) ==> s.registered.None? && s.triggered.None? && s.barsSeen.None? && s.orders.None? && s.fills.None?
  }

  predicate NoDrills(drills: seq<DrillFile>) {
    forall i :: 0 <= i < |drills| ==> !Usable(drills[i].name)
  }

  lemma EmptySum(a: seq<Metric>, b: seq<Metric>)
    ensures a + b == [] <==> a == [] && b == []
  {
    assert |a + b| == |a| + |b|;
  }

  lemma {:induction false} DrillsEmpty(runId: string, drills: seq<DrillFile>)
    ensures AllDrillMetrics(runId, drills) == [] <==> NoDrills(drills)
  {
    hide Usable, DrillMetrics;
    if drills != [] {
      var n := |drills| - 1;
      DrillsEmpty(runId, drills[..n]);
      EmptySum(AllDrillMetrics(runId, drills[..n]), DrillMetrics(runId, drills[n]));
      DrillEmpty(runId, drills[n]);
      assert forall i :: 0 <= i < n ==> drills[i] == drills[..n][i];
    }
  }

  lemma DrillEmpty(runId: string, d: DrillFile)
    ensures DrillMetrics(runId, d) == [] <==> !Usable(d.name)
  {
    hide Text.NonBlank, DrillLabels;
  }

  lemma ScenarioEmpty(runId: string, s: Scenario)
    ensures ScenarioMetrics(runId, s) == [] <==> NoScenario(s)
  {
    hide Text.NonBlank, ScenarioLabels;
    if Usable(s.name) {
      var ms := ScenarioMetrics(runId, s);
      assert |ms| == (if s.registered.None? then 0 else 1) + (if s.triggered.None? then 0 else 1)
        + (if s.barsSeen.None? then 0 else 1) + (if s.orders.None? then 0 else 1) + (if s.fills.None? then 0 else 1);
    }
  }

  lemma ResultsEmpty(a: Artifacts, stamper: Stamper)
    ensures ResultMetrics(a, stamper) == [] <==> NoResults(a)
  {
    hide CoreLabels, RunIdOf, ScenarioMetrics, NoScenario, KillSwitchText, KillSwitchValue;
    var core, m, f := CoreLabels(a), a.metadata, a.figures;
    ScenarioEmpty(RunIdOf(a), f.scenario);
    var k, t, b := KillSwitchMetrics(RunIdOf(a), m.killSwitch), TimeMetrics(core, m, stamper), BacktestMetrics(core, f);
    var s, p := ScenarioMetrics(RunIdOf(a), f.scenario), PaperMetrics(core, f);
    assert k == [] <==> m.killSwitch.None?;
    assert t == [] <==> m.created.None? && m.started.None? && m.completed.None? by {
      assert |t| == |Maybe(RunCreated, core, Stamped(m.created, stamper))|
        + |Maybe(RunStarted, core, Stamped(m.started, stamper))|
        + |Maybe(RunCompleted, core, Stamped(m.completed, stamper))|
        + |Maybe(RunDuration, core, Stamped(Duration(m), stamper))|;
    }
    assert b == [] <==> f.candles.None? && f.bars.None? && f.engineSeconds.None?;
    assert p == [] <==> f.heartbeats.None? && f.syntheticSeconds.None?;
    hide KillSwitchMetrics, TimeMetrics, BacktestMetrics, PaperMetrics;
    EmptySum(k, t);
    EmptySum(k + t, b);
    EmptySum(k + t + b, s);
    EmptySum(k + t + b + s, p);
  }

  lemma ConnectivityEmpty(a: Artifacts)
    requires StateFault(a).None?
    ensures ConnectivityMetrics(a) == [] <==> NoConnectivity(a)
  {
    hide CoreLabels, ProbeLabels, Text.NonBlank, ReadinessValue, ProbeValue;
  }

  lemma RecordsEmpty(a: Artifacts, stamper: Stamper)
    requires RecordFault(a).None?
    ensures RecordMetrics(a, stamper) == [] <==> !a.includeJournal && a.reconciliation.None?
  {
    hide CoreLabels, EventMetrics, CheckMetrics, SummaryFault, EventNames, Names;
  }

  /** A run has nothing but its info gauge if and only if it is info only. */
  lemma InfoOnlyExact(a: Artifacts, stamper: Stamper)
    requires RunFault(a).None?
    ensures |RunMetrics.RunMetrics(a, stamper)| == 1 <==> InfoOnly(a)
  {
    hide CoreLabels, InfoLabels, ConnectivityMetrics, ResultMetrics, RecordMetrics, AllDrillMetrics;
    hide StateFault, RecordFault, NoConnectivity, NoResults, NoDrills, RunIdOf;
    ConnectivityEmpty(a);
    ResultsEmpty(a, stamper);
    RecordsEmpty(a, stamper);
    DrillsEmpty(RunIdOf(a), a.drills);
  }

  predicate AllInfo(ms: seq<Metric>) {
    forall i :: 0 <= i < |ms| ==> ms[i].family == RunInfo
  }

  lemma {:induction false} InfosOnly(runs: seq<Artifacts>, stamper: Stamper)
    requires Sound(runs) && forall i :: 0 <= i < |runs| ==> InfoOnly(runs[i])
    ensures AllInfo(RunsEmitted(runs, stamper))
  {
    hide RunMetrics.RunMetrics, RunFault, InfoOnly, InfoLabels;
    if runs != [] {
      var n := |runs| - 1;
      InfosOnly(runs[..n], stamper);
      InfoOnlyExact(runs[n], stamper);
      InfoFirst(runs[n], stamper);
    }
  }

  lemma GroupsTail(infos: seq<Metric>, ms: seq<Metric>)
    requires InGroups(infos + ms)
    ensures InGroups(ms)
  {
    var all, n := infos + ms, |infos|;
    forall i, j, k | 0 <= i < j < k < |ms| && ms[i].family == ms[k].family ensures ms[j].family == ms[i].family {
      assert ms[i] == all[n + i] && ms[j] == all[n + j] && ms[k] == all[n + k];
    }
  }

  lemma InfosThenRun(infos: seq<Metric>, ms: seq<Metric>)
    requires AllInfo(infos) && ms != [] && ms[0].family == RunInfo && InGroups(ms)
    requires forall p :: 1 <= p < |ms| ==> ms[p].family != RunInfo
    ensures InGroups(infos + ms)
  {
    hide InGroups;
    var all, n := infos + ms, |infos|;
    forall p | 0 <= p < |all| ensures all[p].family == RunInfo <==> p <= n {
      assert all[p] == if p < n then infos[p] else ms[p - n];
    }
    forall i, j, k | 0 <= i < j < k < |all| && all[i].family == all[k].family ensures all[j].family == all[i].family {
      if i > n {
        SameGroup(ms, i - n, j - n, k - n);
      }
    }
    assert InGroups(all) by { GroupedSo(all); }
  }

  lemma SameGroup(ms: seq<Metric>, i: nat, j: nat, k: nat)
    requires InGroups(ms) && i < j < k < |ms| && ms[i].family == ms[k].family
    ensures ms[j].family == ms[i].family
  {
  }

  lemma GroupedSo(ms: seq<Metric>)
    requires forall i, j, k :: 0 <= i < j < k < |ms| && ms[i].family == ms[k].family ==> ms[j].family == ms[i].family
    ensures InGroups(ms)
  {
  }

  lemma Scattered(all: seq<Metric>, p: nat, q: nat)
    requires p + 1 < q < |all| && all[p].family == all[q].family != all[p + 1].family
    ensures !InGroups(all)
  {
  }

  lemma RunsScattered(runs: seq<Artifacts>, stamper: Stamper, i: nat)
    requires Sound(runs) && i + 1 < |runs| && !InfoOnly(runs[i])
    ensures !InGroups(RunsEmitted(runs, stamper))
  {
    hide RunFault, RunMetrics.RunMetrics, InfoLabels, InfoOnly, InGroups, RunsEmitted;
    RunAt(runs, stamper, i);
    RunAt(runs, stamper, i + 1);
    InfoFirst(runs[i], stamper);
    InfoFirst(runs[i + 1], stamper);
    InfoOnlyExact(runs[i], stamper);
    var all := RunsEmitted(runs, stamper);
    var p, q := |RunsEmitted(runs[..i], stamper)|, |RunsEmitted(runs[..i + 1], stamper)|;
    var ms, ns := RunMetrics.RunMetrics(runs[i], stamper), RunMetrics.RunMetrics(runs[i + 1], stamper);
    SliceAt(all, p, ms, 0);
    SliceAt(all, p, ms, 1);
    SliceAt(all, q, ns, 0);
    Scattered(all, p, q);
  }

  lemma SliceAt(all: seq<Metric>, p: nat, ms: seq<Metric>, k: nat)
    requires p + |ms| <= |all| && all[p..p + |ms|] == ms && k < |ms|
    ensures all[p + k] == ms[k]
  {
    assert all[p + k] == all[p..p + |ms|][k];
  }

  /** Runs keep their families together if and only if all but the last are info only and the last has at
      most one usable drill. */
  lemma RunsInGroups(runs: seq<Artifacts>, stamper: Stamper)
    requires Sound(runs) && runs != []
    ensures InGroups(RunsEmitted(runs, stamper)) <==>
      AtMostOneDrill(runs[|runs| - 1].drills) && forall i :: 0 <= i < |runs| - 1 ==> InfoOnly(runs[i])
  {
    hide RunFault, RunMetrics.RunMetrics, InfoLabels, InfoOnly, InGroups, AtMostOneDrill;
    var n := |runs| - 1;
    if i :| 0 <= i < n && !InfoOnly(runs[i]) {
      RunsScattered(runs, stamper, i);
    } else {
      InfosOnly(runs[..n], stamper);
      InfoFirst(runs[n], stamper);
      RunInGroups(runs[n], stamper);
      if InGroups(RunMetrics.RunMetrics(runs[n], stamper)) {
        InfosThenRun(RunsEmitted(runs[..n], stamper), RunMetrics.RunMetrics(runs[n], stamper));
      } else if InGroups(RunsEmitted(runs[..n], stamper) + RunMetrics.RunMetrics(runs[n], stamper)) {
        GroupsTail(RunsEmitted(runs[..n], stamper), RunMetrics.RunMetrics(runs[n], stamper));
      }
    }
  }

  predicate RunsGrouped(runs: seq<Artifacts>) {
    runs == [] || (AtMostOneDrill(runs[|runs| - 1].drills) && forall i :: 0 <= i < |runs| - 1 ==> InfoOnly(runs[i]))
  }

  /** Main result on grouping. "All lines for a given metric must be provided as one single group": a
      document obeys this if and only if every rendered run but the last has nothing to show but its info
      gauge, the last has at most one usable drill, and the evidence states at most one status. */
  lemma DocumentGrouped(r: Request, store: Store, stamper: Stamper)
    ensures Grouped(Samples(Emitted(r, store, stamper))) <==>
      RunsGrouped(Shown(r, store)) && (r.evidence.Some? ==> AtMostOneStatus(r.evidence.value))
  {
    hide Shown, RunFault, RunMetrics.RunMetrics, EvidenceEmitted, Samples, WithoutEvidence, Meet, Neat, Keyed, AllApart;
    hide RunsEmitted, InGroups, Grouped, AtMostOneDrill, AtMostOneStatus, InfoOnly;
    ShownSound(r, store);
    var runs, ms, ns := Shown(r, store), RunsEmitted(Shown(r, store), stamper), EvidenceShown(r);
    RunsWithoutEvidence(runs, stamper);
    EvidenceShownNeat(r);
    EvidenceNeverMeets(ms, ns);
    GroupsConcat(ms, ns);
    GroupedFamilies(ms + ns);
    assert InGroups([]) by { NothingGrouped(); }
    if runs != [] {
      RunsInGroups(runs, stamper);
    } else {
      assert ms == [] by { NoRunsNothing(stamper); }
    }
    if r.evidence.Some? {
      EvidenceGrouped(r.evidence.value);
      GroupedFamilies(EvidenceEmitted(r.evidence.value));
    }
  }

  lemma NoRunsNothing(stamper: Stamper)
    ensures RunsEmitted([], stamper) == []
  {
  }

  lemma {:induction false} AllRendered(ids: seq<string>, store: Store)
    requires forall id <- ids :: id in store && Renders(store[id]) && store[id].artifacts.includeJournal
    ensures |Rendering(ids, store)| == |ids|
    ensures forall i :: 0 <= i < |ids| ==> Rendering(ids, store)[i].includeJournal
  {
    hide Renders;
    if ids != [] {
      AllRendered(ids[..|ids| - 1], store);
    }
  }

  /** Two runs of which nothing but their empty journals is known break the rule. */
  lemma TwoJournals(stamper: Stamper)
    ensures var a, b := Bare("a", []).(includeJournal := true), Bare("b", []).(includeJournal := true);
      var r, store := Request("runs", None, None), map["a" := Readable(a), "b" := Readable(b)];
      !Grouped(Samples(Emitted(r, store, stamper)))
  {
    hide Emitted, Samples, Grouped, AtMostOneDrill, Sorting.SortedStrings;
    var a, b := Bare("a", []).(includeJournal := true), Bare("b", []).(includeJournal := true);
    var r, store := Request("runs", None, None), map["a" := Readable(a), "b" := Readable(b)];
    var ids := Sorting.SortedStrings(store.Keys);
    Sorting.SortedStringsShape(store.Keys);
    assert "a" in ids && "b" in ids && "a" != "b";
    AllRendered(ids, store);
    DocumentGrouped(r, store, stamper);
    assert Shown(r, store)[0].includeJournal;
  }
}
