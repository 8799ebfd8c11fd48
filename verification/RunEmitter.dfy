/** render_prometheus_text of observability/metrics.py as it runs: checks and appends in turn. */
module RunEmitter {
  import opened Decimals
  import opened MetricNames
  import opened PrometheusText
  import opened MetricSeries
  import opened RunMetrics
  import Sorting

  lemma {:induction false} EventNamesSnoc(journal: seq<Option<string>>, entry: Option<string>)
    ensures EventNames(journal + [entry]) == EventNames(journal) + if Usable(entry) then [entry.value] else []
  {
    hide Usable;
    if journal == [] {
      assert (journal + [entry])[1..] == [];
    } else {
      assert (journal + [entry])[1..] == journal[1..] + [entry];
      EventNamesSnoc(journal[1..], entry);
    }
  }

  /** `Counter(...)` over the usable event names. */
  method CountEvents(journal: seq<Option<string>>) returns (counts: multiset<string>)
    ensures counts == multiset(EventNames(journal))
  {
    counts := multiset{};
    for i := 0 to |journal|
      invariant counts == multiset(EventNames(journal[..i]))
    {
      assert journal[..i + 1] == journal[..i] + [journal[i]];
      EventNamesSnoc(journal[..i], journal[i]);
      if Usable(journal[i]) {
        counts := counts + multiset{journal[i].value};
      }
    }
    assert journal[..|journal|] == journal;
  }

  method EmitJournal(lines: LineBuffer, core: seq<(Key, string)>, journal: seq<Option<string>>)
    requires lines.Valid() && lines.comments == []
    modifies lines
    ensures lines.Valid() && lines.comments == []
    ensures lines.emitted == old(lines.emitted) + JournalMetrics(core, journal)
  {
    hide LineBuffer.Valid, EventMetrics, Names, Maybe;
    lines.AppendAll(Maybe(JournalEventsTotal, core, Number(|journal|)));
    var counts := CountEvents(journal);
    var names := Sorting.SortStrings(Names(counts));
    EmitEvents(lines, core, names, counts);
    Associative();
  }

  method EmitEvents(lines: LineBuffer, core: seq<(Key, string)>, names: seq<string>, counts: multiset<string>)
    requires lines.Valid() && lines.comments == []
    modifies lines
    ensures lines.Valid() && lines.comments == []
    ensures lines.emitted == old(lines.emitted) + EventMetrics(core, names, counts)
  {
    hide LineBuffer.Valid;
    ghost var before := lines.emitted;
    for i := 0 to |names|
      invariant lines.Valid() && lines.comments == []
      invariant lines.emitted == before + EventMetrics(core, names[..i], counts)
    {
      lines.AppendMetric(JournalEventTotal, core + [(Event, names[i])], Integral(IntCount(counts[names[i]])));
      ghost var done := EventMetrics(core, names[..i], counts);
      ghost var next := Metric(JournalEventTotal, core + [(Event, names[i])], Integral(IntCount(counts[names[i]])));
      assert EventMetrics(core, names[..i + 1], counts) == done + [next];
      assert before + done + [next] == before + (done + [next]);
    }
    assert names[..|names|] == names;
  }

  method EmitReconciliation(lines: LineBuffer, core: seq<(Key, string)>, r: ReconciliationFile, stamper: Stamper)
    returns (fault: Option<Fault>)
    requires lines.Valid() && lines.comments == []
    modifies lines
    ensures lines.Valid() && lines.comments == []
    ensures fault == ReconciliationFault(r)
    ensures fault.None? ==> lines.emitted == old(lines.emitted) + ReconciliationMetrics(core, r, stamper)
  {
    hide LineBuffer.Valid, Maybe, Stamped, Number, CheckMetrics, SummaryFault;
    if r.status !in SEVERITIES { return Some(Fault(ReconciliationJson, "status")); }
    lines.AppendAll(Maybe(ReconciliationStatus, core + [(Status, r.status)], Number(1)));
    if r.summary.None? { return Some(Fault(ReconciliationJson, "summary")); }
    fault := EmitChecks(lines, core, r.summary.value);
    if fault.Some? { return; }
    if r.stamp.None? { return Some(Fault(ReconciliationJson, "ts_utc")); }
    lines.AppendAll(Maybe(ReconciliationTimestamp, core, Stamped(r.stamp, stamper)));
    Associative();
    return None;
  }

  method EmitChecks(lines: LineBuffer, core: seq<(Key, string)>, s: Summary) returns (fault: Option<Fault>)
    requires lines.Valid() && lines.comments == []
    modifies lines
    ensures lines.Valid() && lines.comments == []
    ensures fault == SummaryFault(s, 0)
    ensures fault.None? ==> lines.emitted == old(lines.emitted) + CheckMetrics(core, s, 4)
  {
    hide LineBuffer.Valid, CheckMetric, Tally;
    Associative();
    ghost var before := lines.emitted;
    for i := 0 to 4
      invariant lines.Valid() && lines.comments == []
      invariant SummaryFault(s, 0) == SummaryFault(s, i)
      invariant lines.emitted == before + CheckMetrics(core, s, i)
    {
      if Tally(s, i).None? { return Some(Fault(ReconciliationJson, SUMMARY_FIELDS[i])); }
      lines.AppendAll(CheckMetric(core, s, i));
    }
    return None;
  }

  method EmitDrills(lines: LineBuffer, runId: string, drills: seq<DrillFile>)
    requires lines.Valid() && lines.comments == []
    modifies lines
    ensures lines.Valid() && lines.comments == []
    ensures lines.emitted == old(lines.emitted) + AllDrillMetrics(runId, drills)
  {
    hide LineBuffer.Valid, DrillMetrics;
    ghost var before := lines.emitted;
    for i := 0 to |drills|
      invariant lines.Valid() && lines.comments == []
      invariant lines.emitted == before + AllDrillMetrics(runId, drills[..i])
    {
      assert drills[..i + 1][..i] == drills[..i];
      lines.AppendAll(DrillMetrics(runId, drills[i]));
      Associative();
    }
    assert drills[..|drills|] == drills;
  }

  method EmitRecords(lines: LineBuffer, a: Artifacts, stamper: Stamper) returns (fault: Option<Fault>)
    requires lines.Valid() && lines.comments == []
    modifies lines
    ensures lines.Valid() && lines.comments == []
    ensures fault == RecordFault(a)
    ensures fault.None? ==> lines.emitted == old(lines.emitted) + RecordMetrics(a, stamper)
  {
    hide LineBuffer.Valid, ReconciliationFault, JournalMetrics, ReconciliationMetrics, CoreLabels;
    if a.includeJournal {
      EmitJournal(lines, CoreLabels(a), a.journal);
    }
    if a.reconciliation.Some? {
      fault := EmitReconciliation(lines, CoreLabels(a), a.reconciliation.value, stamper);
      if fault.Some? { return; }
    }
    Associative();
    return None;
  }

  datatype Rendered = Rendered(text: string) | Refused(fault: Fault)

  /** The lines of a run: its metrics, then the comments on skipped drill files. */
  ghost function RunLines(a: Artifacts, stamper: Stamper): seq<Line>
    requires RunFault(a).None?
  {
    LinesOf(RunMetrics.RunMetrics(a, stamper), a.skipComments)
  }

  lemma InfoEmitted(a: Artifacts, stamper: Stamper)
    requires RunFault(a).None?
    ensures RunMetrics.RunMetrics(a, stamper) != []
  {
    hide InfoLabels, ConnectivityMetrics, ResultMetrics, RecordMetrics, AllDrillMetrics, RunFault;
  }

  /** `render_prometheus_text`. */
  method RenderPrometheusText(a: Artifacts, stamper: Stamper) returns (r: Rendered)
    ensures RunFault(a).Some? ==> r == Refused(RunFault(a).value)
    ensures RunFault(a).None? ==> r == Rendered(Document(Texts(RunLines(a, stamper))))
  {
    hide LineBuffer.Valid, Texts, LinesOf, Document, Maybe, Number;
    hide StateFault, RecordFault, InfoLabels, ConnectivityMetrics, ResultMetrics, RecordMetrics, AllDrillMetrics;
    var lines := new LineBuffer();
    lines.AppendAll(Maybe(RunInfo, InfoLabels(a), Number(1)));
    assert lines.emitted == Maybe(RunInfo, InfoLabels(a), Number(1));
    var fault := StateFault(a);
    if fault.Some? { return Refused(fault.value); }
    lines.AppendAll(ConnectivityMetrics(a));
    lines.AppendAll(ResultMetrics(a, stamper));
    fault := EmitRecords(lines, a, stamper);
    if fault.Some? { return Refused(fault.value); }
    EmitDrills(lines, RunIdOf(a), a.drills);
    assert lines.emitted != [] by { InfoEmitted(a, stamper); }
    for i := 0 to |a.skipComments|
      invariant lines.Valid() && lines.emitted == RunMetrics.RunMetrics(a, stamper)
      invariant lines.comments == a.skipComments[..i]
    {
      lines.AppendComment(a.skipComments[i]);
    }
    assert a.skipComments[..|a.skipComments|] == a.skipComments;
    var text := lines.Finish();
    return Rendered(text);
  }
}
