/** Main results about the metrics text of one run. */
module RunDocument {
  import opened Decimals
  import opened MetricNames
  import opened PrometheusText
  import opened MetricSeries
  import opened RunMetrics
  import opened RunEmitter
  import opened RunSeries
  import Sorting
  import Text

  // ---------------------------------------------------------------- drills

  /** Drill names, stripped, of two usable reports differ. */
  predicate DistinctDrills(drills: seq<DrillFile>) {
    forall i, j :: 0 <= i < j < |drills| && Usable(drills[i].name) && Usable(drills[j].name) ==>
      Text.Strip(drills[i].name.value) != Text.Strip(drills[j].name.value)
  }

  predicate AtMostOneDrill(drills: seq<DrillFile>) {
    forall i, j :: 0 <= i < j < |drills| ==> !(Usable(drills[i].name) && Usable(drills[j].name))
  }

  lemma DrillsTidy(runId: string, d: DrillFile)
    ensures var ms := DrillMetrics(runId, d);
      InOrder(ms, 29, 30) && AllApart(ms) && OfRun(ms, runId) && Numeric(ms)
    ensures forall i :: 0 <= i < |DrillMetrics(runId, d)| ==>
      Usable(d.name) && DrillMetrics(runId, d)[i].labels == DrillLabels(runId, d)
  {
    hide Text.NonBlank, Text.Strip, OutcomeValue, PassValue;
    assert Usable(d.name) ==> Labelled(DrillLabels(runId, d), runId);
    hide Labelled, DrillLabels;
  }

  /** Every drill metric belongs to a usable report. */
  lemma {:induction false} DrillOrigin(runId: string, drills: seq<DrillFile>, p: nat) returns (i: nat)
    requires p < |AllDrillMetrics(runId, drills)|
    ensures i < |drills| && Usable(drills[i].name)
    ensures AllDrillMetrics(runId, drills)[p].labels == DrillLabels(runId, drills[i])
  {
    hide Text.NonBlank, Text.Strip, DrillMetrics, DrillLabels;
    var last := |drills| - 1;
    var front := AllDrillMetrics(runId, drills[..last]);
    if p < |front| {
      i := DrillOrigin(runId, drills[..last], p);
    } else {
      DrillsTidy(runId, drills[last]);
      assert AllDrillMetrics(runId, drills)[p] == DrillMetrics(runId, drills[last])[p - |front|];
      i := last;
    }
  }

  lemma DrillLabelsApart(runId: string, d: DrillFile, e: DrillFile, m: Metric, n: Metric)
    requires Usable(d.name) && Usable(e.name) && Text.Strip(d.name.value) != Text.Strip(e.name.value)
    requires m.labels == DrillLabels(runId, d) && n.labels == DrillLabels(runId, e)
    ensures Apart(m, n)
  {
    hide Text.NonBlank, Text.Strip;
    LastLabelApart(m, n, [(RunId, runId)], DrillName, Text.Strip(d.name.value), Text.Strip(e.name.value));
  }

  lemma ApartConcat(a: seq<Metric>, b: seq<Metric>)
    requires AllApart(a) && AllApart(b)
    requires forall i, j :: 0 <= i < |a| && 0 <= j < |b| ==> Apart(a[i], b[j])
    ensures AllApart(a + b)
  {
    hide Apart;
  }

  lemma {:induction false} DrillsApart(runId: string, drills: seq<DrillFile>)
    ensures InOrder(AllDrillMetrics(runId, drills), 29, 30)
    ensures OfRun(AllDrillMetrics(runId, drills), runId) && Numeric(AllDrillMetrics(runId, drills))
    ensures DistinctDrills(drills) ==> AllApart(AllDrillMetrics(runId, drills))
  {
    hide Text.NonBlank, Text.Strip, DrillMetrics, DrillLabels, InOrder, OfRun, Numeric;
    if drills == [] {
      NoMetricsTidy(runId);
    } else {
      var last := |drills| - 1;
      var a, b := AllDrillMetrics(runId, drills[..last]), DrillMetrics(runId, drills[last]);
      DrillsApart(runId, drills[..last]);
      DrillsTidy(runId, drills[last]);
      Concat(a, b, runId);
      SameRank(a, b, 29);
      if DistinctDrills(drills) {
        hide Apart;
        forall i, j | 0 <= i < |a| && 0 <= j < |b| ensures Apart(a[i], b[j]) {
          var k := DrillOrigin(runId, drills[..last], i);
          DrillLabelsApart(runId, drills[k], drills[last], a[i], b[j]);
        }
        ApartConcat(a, b);
      }
    }
  }

  lemma NoMetricsTidy(runId: string)
    ensures InOrder([], 29, 30) && OfRun([], runId) && Numeric([])
  {
  }

  lemma SameRank(a: seq<Metric>, b: seq<Metric>, r: nat)
    requires InOrder(a, r, r + 1) && InOrder(b, r, r + 1)
    ensures InOrder(a + b, r, r + 1)
  {
    hide Family.Rank;
  }

  lemma {:induction false} DrillPrefix(runId: string, drills: seq<DrillFile>, k: nat)
    requires k <= |drills|
    ensures AllDrillMetrics(runId, drills[..k]) <= AllDrillMetrics(runId, drills)
  {
    hide DrillMetrics;
    if k == |drills| {
      assert drills[..k] == drills;
    } else {
      var init := drills[..|drills| - 1];
      DrillPrefix(runId, init, k);
      assert init[..k] == drills[..k];
    }
  }

  /** Where the metrics of a usable report start. */
  lemma DrillAt(runId: string, drills: seq<DrillFile>, i: nat)
    requires i < |drills| && Usable(drills[i].name)
    ensures var all, p := AllDrillMetrics(runId, drills), |AllDrillMetrics(runId, drills[..i])|;
      && p + 3 == |AllDrillMetrics(runId, drills[..i + 1])| <= |all|
      && all[p] == Metric(DrillExecuted, DrillLabels(runId, drills[i]), Integral(IntCount(1)))
      && all[p + 1].family == DrillLastPass
  {
    hide Text.NonBlank, Text.Strip, OutcomeValue, PassValue;
    var upTo := drills[..i + 1];
    assert upTo[..i] == drills[..i] && upTo[i] == drills[i];
    var front := AllDrillMetrics(runId, drills[..i]);
    assert AllDrillMetrics(runId, upTo) == front + DrillMetrics(runId, drills[i]);
    DrillPrefix(runId, drills, i + 1);
    assert AllDrillMetrics(runId, upTo)[|front|] == DrillMetrics(runId, drills[i])[0];
    assert AllDrillMetrics(runId, upTo)[|front| + 1] == DrillMetrics(runId, drills[i])[1];
  }

  /** Two usable reports, in order: their metrics do not overlap. */
  lemma DrillsAt(runId: string, drills: seq<DrillFile>, i: nat, j: nat) returns (p: nat, q: nat)
    requires i < j < |drills| && Usable(drills[i].name) && Usable(drills[j].name)
    ensures p + 1 < q < |AllDrillMetrics(runId, drills)|
    ensures var all := AllDrillMetrics(runId, drills);
      && all[p] == Metric(DrillExecuted, DrillLabels(runId, drills[i]), Integral(IntCount(1)))
      && all[q] == Metric(DrillExecuted, DrillLabels(runId, drills[j]), Integral(IntCount(1)))
      && all[p + 1].family == DrillLastPass
  {
    hide Text.NonBlank, Text.Strip, AllDrillMetrics, DrillLabels;
    DrillAt(runId, drills, i);
    DrillAt(runId, drills, j);
    assert drills[..j][..i + 1] == drills[..i + 1];
    DrillPrefix(runId, drills[..j], i + 1);
    p, q := |AllDrillMetrics(runId, drills[..i])|, |AllDrillMetrics(runId, drills[..j])|;
  }

  // ---------------------------------------------------------------- unique series

  lemma RunApart(a: Artifacts, stamper: Stamper)
    requires RunFault(a).None?
    ensures var ms := RunMetrics.RunMetrics(a, stamper);
      && InOrder(ms, 0, 30) && OfRun(ms, RunIdOf(a)) && (Numeric(ms) <==> PlainCounts(a))
      && (DistinctDrills(a.drills) ==> AllApart(ms))
  {
    hide FrontMetrics, AllDrillMetrics, InOrder, AllApart, OfRun, Numeric, PlainCounts, RunFault, RunIdOf;
    hide DistinctDrills;
    var front, drills := FrontMetrics(a, stamper), AllDrillMetrics(RunIdOf(a), a.drills);
    TidyFront(a, stamper);
    DrillsApart(RunIdOf(a), a.drills);
    InOrderConcat(front, drills, 0, 29, 30);
    Concat(front, drills, RunIdOf(a));
  }

  lemma OfRunKeyed(ms: seq<Metric>, runId: string)
    requires OfRun(ms, runId)
    ensures Keyed(ms)
  {
    hide Ordered;
  }

  /** No two samples of a run share name and label set if and only if its drill names, stripped, differ. */
  lemma RunSeriesUnique(a: Artifacts, stamper: Stamper)
    requires RunFault(a).None?
    ensures UniqueSeries(Samples(RunMetrics.RunMetrics(a, stamper))) <==> DistinctDrills(a.drills)
  {
    RunAllApart(a, stamper);
    RunApart(a, stamper);
    hide RunMetrics.RunMetrics, AllApart, InOrder, Numeric, PlainCounts, RunFault, DistinctDrills, OfRun, RunIdOf;
    hide UniqueSeries, Samples, Keyed;
    OfRunKeyed(RunMetrics.RunMetrics(a, stamper), RunIdOf(a));
    ApartUnique(RunMetrics.RunMetrics(a, stamper));
  }

  lemma RunAllApart(a: Artifacts, stamper: Stamper)
    requires RunFault(a).None?
    ensures AllApart(RunMetrics.RunMetrics(a, stamper)) <==> DistinctDrills(a.drills)
  {
    hide FrontMetrics, AllDrillMetrics, InOrder, Numeric, PlainCounts, RunFault, RunIdOf, OfRun, AllApart;
    hide DistinctDrills;
    RunApart(a, stamper);
    if !DistinctDrills(a.drills) {
      DrillsNotApart(FrontMetrics(a, stamper), RunIdOf(a), a.drills);
    }
  }

  lemma DrillsNotApart(front: seq<Metric>, runId: string, drills: seq<DrillFile>)
    requires !DistinctDrills(drills)
    ensures !AllApart(front + AllDrillMetrics(runId, drills))
  {
    hide AllDrillMetrics, Text.NonBlank, Text.Strip;
    var ms, all := AllDrillMetrics(runId, drills), front + AllDrillMetrics(runId, drills);
    var i, j :| 0 <= i < j < |drills| && Usable(drills[i].name) && Usable(drills[j].name)
      && Text.Strip(drills[i].name.value) == Text.Strip(drills[j].name.value);
    var p, q := DrillsAt(runId, drills, i, j);
    assert ms[p] == ms[q] && all[|front| + p] == ms[p] && all[|front| + q] == ms[q];
    assert !Apart(all[|front| + p], all[|front| + q]);
  }

  // ---------------------------------------------------------------- one group a family

  /** Outside the drills and the evidence statuses a rank has one family. */
  lemma RankTells(f: Family, g: Family)
    requires f.Rank() == g.Rank() && f.Rank() < 29
    ensures f == g
  {
    hide Family.Rank;
    RankedFamily(f);
    RankedFamily(g);
  }

  function Ranked(rank: nat): Family {
    match rank
    case 0 => RunInfo
    case 1 => ReadinessState
    case 2 => ReadinessEnabled
    case 3 => ReadinessMissing
    case 4 => ReadinessProbePerformed
    case 5 => ProbeState
    case 6 => ProbePerformed
    case 7 => ProbeLatency
    case 8 => ProbeHttpStatus
    case 9 => KillSwitchState
    case 10 => RunCreated
    case 11 => RunStarted
    case 12 => RunCompleted
    case 13 => RunDuration
    case 14 => InputCandles
    case 15 => BarsProcessed
    case 16 => EngineDuration
    case 17 => StrategyRegistered
    case 18 => ActionTriggered
    case 19 => BarsSeen
    case 20 => OrdersSubmitted
    case 21 => Fills
    case 22 => HeartbeatTotal
    case 23 => SyntheticDuration
    case 24 => JournalEventsTotal
    case 25 => JournalEventTotal
    case 26 => ReconciliationStatus
    case 27 => ReconciliationChecks
    case _ => ReconciliationTimestamp
  }

  lemma RankedLow(f: Family)
    requires f.Rank() < 14
    ensures Ranked(f.Rank()) == f
  {
  }

  lemma RankedHigh(f: Family)
    requires 14 <= f.Rank() < 29
    ensures Ranked(f.Rank()) == f
  {
  }

  lemma RankedFamily(f: Family)
    requires f.Rank() < 29
    ensures Ranked(f.Rank()) == f
  {
    hide Family.Rank, Ranked;
    if f.Rank() < 14 { RankedLow(f); } else { RankedHigh(f); }
  }

  lemma NoDrillsNoMetrics(runId: string, drills: seq<DrillFile>)
    requires AtMostOneDrill(drills)
    ensures var ms := AllDrillMetrics(runId, drills);
      ms == [] || exists i :: 0 <= i < |drills| && ms == DrillMetrics(runId, drills[i])
  {
    hide Text.NonBlank, DrillGauges, DrillLabels;
    if drills != [] {
      var last := |drills| - 1;
      NoDrillsNoMetrics(runId, drills[..last]);
      var front := AllDrillMetrics(runId, drills[..last]);
      if front == [] {
        assert front + DrillMetrics(runId, drills[last]) == DrillMetrics(runId, drills[last]);
      } else {
        var i :| 0 <= i < last && front == DrillMetrics(runId, drills[..last][i]);
        assert Usable(drills[i].name);
        assert front + [] == front == DrillMetrics(runId, drills[i]);
      }
    }
  }

  lemma OneReportFamilies(runId: string, d: DrillFile)
    ensures var ms := DrillMetrics(runId, d);
      forall i, j :: 0 <= i < j < |ms| ==> ms[i].family != ms[j].family
  {
    hide Text.NonBlank, OutcomeValue, PassValue, DrillLabels;
  }

  lemma OneDrillFamilies(runId: string, drills: seq<DrillFile>)
    requires AtMostOneDrill(drills)
    ensures var ms := AllDrillMetrics(runId, drills);
      forall i, j :: 0 <= i < j < |ms| ==> ms[i].family != ms[j].family
  {
    NoDrillsNoMetrics(runId, drills);
    hide AtMostOneDrill, DrillMetrics, AllDrillMetrics;
    if AllDrillMetrics(runId, drills) != [] {
      var i :| 0 <= i < |drills| && AllDrillMetrics(runId, drills) == DrillMetrics(runId, drills[i]);
      OneReportFamilies(runId, drills[i]);
    }
  }

  lemma InOneGroup(ms: seq<Metric>, front: seq<Metric>, drills: seq<Metric>, i: nat, j: nat, k: nat)
    requires ms == front + drills && InOrder(ms, 0, 30) && InOrder(front, 0, 29) && InOrder(drills, 29, 30)
    requires forall i, j :: 0 <= i < j < |drills| ==> drills[i].family != drills[j].family
    requires i < j < k < |ms| && ms[i].family == ms[k].family
    ensures ms[i].family == ms[j].family
  {
    hide Family.Rank;
    assert forall p :: |front| <= p < |ms| ==> ms[p] == drills[p - |front|];
    assert forall p, q :: |front| <= p < q < |ms| ==> ms[p].family != ms[q].family;
    assert ms[i].family.Rank() < 29;
    RankTells(ms[i].family, ms[j].family);
  }

  /** "All lines for a given metric must be provided as one single group": a run's text obeys this if and
      only if at most one of its drill reports is usable, since each report writes its three families. */
  lemma RunGrouped(a: Artifacts, stamper: Stamper)
    requires RunFault(a).None?
    ensures Grouped(Samples(RunMetrics.RunMetrics(a, stamper))) <==> AtMostOneDrill(a.drills)
  {
    hide RunMetrics.RunMetrics, RunFault, Samples, Grouped, InGroups;
    RunInGroups(a, stamper);
    GroupedFamilies(RunMetrics.RunMetrics(a, stamper));
  }

  lemma RunInGroups(a: Artifacts, stamper: Stamper)
    requires RunFault(a).None?
    ensures InGroups(RunMetrics.RunMetrics(a, stamper)) <==> AtMostOneDrill(a.drills)
  {
    hide FrontMetrics, AllDrillMetrics, InOrder, AllApart, Numeric, PlainCounts, RunFault, Text.NonBlank, Text.Strip;
    hide RunIdOf, OfRun;
    var ms, front, runId := RunMetrics.RunMetrics(a, stamper), FrontMetrics(a, stamper), RunIdOf(a);
    var drills := AllDrillMetrics(runId, a.drills);
    RunApart(a, stamper);
    TidyFront(a, stamper);
    DrillsApart(runId, a.drills);
    if AtMostOneDrill(a.drills) {
      OneDrillFamilies(runId, a.drills);
      forall i, j, k | 0 <= i < j < k < |ms| && ms[i].family == ms[k].family ensures ms[j].family == ms[i].family {
        InOneGroup(ms, front, drills, i, j, k);
      }
    } else {
      var i, j :| 0 <= i < j < |a.drills| && Usable(a.drills[i].name) && Usable(a.drills[j].name);
      var p, q := DrillsAt(runId, a.drills, i, j);
      assert ms[|front| + p] == drills[p] && ms[|front| + q] == drills[q] && ms[|front| + p + 1] == drills[p + 1];
    }
  }

  // ---------------------------------------------------------------- print and parse

  /** A scraper reads the text of a run as exactly the emitted samples, in order, if and only if no count is
      a boolean and every comment on a skipped drill file is contained. */
  lemma RunRoundTrip(a: Artifacts, stamper: Stamper)
    requires RunFault(a).None?
    ensures ReadsAs(Document(Texts(RunLines(a, stamper))), Samples(RunMetrics.RunMetrics(a, stamper)))
       <==> PlainCounts(a) && AllContained(a.skipComments)
  {
    hide RunMetrics.RunMetrics, PlainCounts, RunFault, Numeric, AllContained, LinesOf, Texts, Document, ReadsAs;
    hide WellBehaved, Printable, SamplesOf, Samples;
    var ms := RunMetrics.RunMetrics(a, stamper);
    RunApart(a, stamper);
    LinesWellBehaved(ms, a.skipComments);
    SamplesOfLines(ms, a.skipComments);
    DocumentRoundTrip(RunLines(a, stamper));
  }

  // ---------------------------------------------------------------- runs on which the promises fail

  /** A paper run whose metrics.json says `"heartbeat_count": true` is not read back. */
  lemma TrueHeartbeats(a: Artifacts, stamper: Stamper)
    requires RunFault(a).None? && a.figures.heartbeats == Some(BoolCount(true))
    ensures !ReadsAs(Document(Texts(RunLines(a, stamper))), Samples(RunMetrics.RunMetrics(a, stamper)))
  {
    hide RunFault, RunLines, RunMetrics.RunMetrics, ReadsAs, ConnectivityPlain, RecordsPlain;
    RunRoundTrip(a, stamper);
  }

  /** A run of which nothing but its name is known, with these drill reports. */
  function Bare(runId: string, drills: seq<DrillFile>): Artifacts {
    Artifacts(runId, Metadata(None, None, None, None, None, None, "", None, None, None, None),
      Figures(None, None, None, "", false, false, None, None, None,
              RunMetrics.Scenario.Scenario(None, None, None, None, None, None, None), None, None),
      None, None, false, [], None, drills, [])
  }

  /** Two reports of one drill, as a repeated drill under another file name leaves them, give the same
      series twice and scatter its families. */
  lemma RepeatedDrill(stamper: Stamper)
    ensures var d := DrillFile(Some("stale_market_data"), Some(true), Some("expected_warning"));
      var samples := Samples(RunMetrics.RunMetrics(Bare("r", [d, d]), stamper));
      !UniqueSeries(samples) && !Grouped(samples)
  {
    hide RunMetrics.RunMetrics, Samples, UniqueSeries, Grouped, Text.Strip;
    var name := "stale_market_data";
    var d := DrillFile(Some(name), Some(true), Some("expected_warning"));
    var a := Bare("r", [d, d]);
    SolidText(name);
    assert Usable(d.name);
    assert a.drills[0] == a.drills[1] == d;
    RunSeriesUnique(a, stamper);
    RunGrouped(a, stamper);
  }

  lemma SolidText(s: string)
    requires s != "" && !Text.IsSpace(s[|s| - 1])
    ensures Text.NonBlank(s)
  {
    Text.RStripShape(s);
    Text.LStripShape(s);
    assert Text.RStrip(s) == s;
  }

  // ---------------------------------------------------------------- journal counters

  lemma {:induction false} EventSum(core: seq<(Key, string)>, names: seq<string>, counts: multiset<string>)
    ensures SumOf(EventMetrics(core, names, counts)) == Sorting.CountSum(names, counts)
  {
    if names != [] {
      assert EventMetrics(core, names, counts)[1..] == EventMetrics(core, names[1..], counts);
      EventSum(core, names[1..], counts);
    }
  }

  /** The sum of the integer values. */
  function SumOf(ms: seq<Metric>): int {
    if ms == [] then 0
    else (if ms[0].value.Integral? && ms[0].value.count.IntCount? then ms[0].value.count.n else 0) + SumOf(ms[1..])
  }

  lemma {:induction false} EventNamesIndexed(journal: seq<Option<string>>, e: string)
    ensures e in EventNames(journal) <==> exists i :: 0 <= i < |journal| && Usable(journal[i]) && journal[i].value == e
    ensures |EventNames(journal)| <= |journal|
  {
    hide Text.NonBlank;
    if journal != [] {
      EventNamesIndexed(journal[1..], e);
      if Usable(journal[0]) && journal[0].value == e {
        assert EventNames(journal)[0] == e;
      }
      if i :| 0 <= i < |journal[1..]| && Usable(journal[1..][i]) && journal[1..][i].value == e {
        assert Usable(journal[i + 1]) && journal[i + 1].value == e;
      }
      assert forall i :: 0 < i < |journal| ==> journal[i] == journal[1..][i - 1];
    }
  }

  predicate CountsEvent(m: Metric, core: seq<(Key, string)>, e: string, n: nat) {
    m == Metric(JournalEventTotal, core + [(Event, e)], Integral(IntCount(n)))
  }

  lemma EventLine(core: seq<(Key, string)>, names: seq<string>, counts: multiset<string>, e: string)
    ensures var ms := EventMetrics(core, names, counts);
      e in names <==> exists i :: 0 <= i < |ms| && CountsEvent(ms[i], core, e, counts[e])
  {
    var ms := EventMetrics(core, names, counts);
    if e in names {
      var k :| 0 <= k < |names| && names[k] == e;
      assert CountsEvent(ms[k], core, e, counts[e]);
    }
    if i :| 0 <= i < |ms| && CountsEvent(ms[i], core, e, counts[e]) {
      assert (core + [(Event, e)])[|core|] == (core + [(Event, names[i])])[|core|];
    }
  }

  /** The journal's metrics: one total over all entries, then a line for each event name that occurs,
      with its number of occurrences; these lines add up to the usable entries. */
  lemma JournalConserved(core: seq<(Key, string)>, journal: seq<Option<string>>)
    ensures var ms, names := JournalMetrics(core, journal), EventNames(journal);
      && |ms| >= 1 && ms[0] == Metric(JournalEventsTotal, core, Integral(IntCount(|journal|)))
      && SumOf(ms[1..]) == |names| <= |journal|
      && (forall e :: e in names <==>
           exists i :: 0 <= i < |ms[1..]| && CountsEvent(ms[1..][i], core, e, multiset(names)[e]))
  {
    hide Text.NonBlank, SumOf, EventNames, EventMetrics, CountsEvent;
    var names := EventNames(journal);
    var counts := multiset(names);
    var sorted := Sorting.SortedStrings(Names(counts));
    Sorting.SortedStringsShape(Names(counts));
    Sorting.CountSumTotal(sorted, counts);
    EventSum(core, sorted, counts);
    EventNamesIndexed(journal, "");
    var ms := JournalMetrics(core, journal);
    assert ms[1..] == EventMetrics(core, sorted, counts);
    forall e
      ensures e in names <==> exists i :: 0 <= i < |ms[1..]| && CountsEvent(ms[1..][i], core, e, counts[e])
    {
      assert e in names <==> e in counts;
      assert e in counts <==> e in Names(counts);
      EventLine(core, sorted, counts, e);
    }
  }
}
