/** The whole metrics document (observability/metrics.py, render_metrics_text): one selected run or all
    discovered runs, then the evidence part. */
module MetricsDocument {
  import opened Decimals
  import opened PrometheusText
  import opened MetricSeries
  import opened RunMetrics
  import opened RunEmitter
  import opened RunSeries
  import opened RunDocument
  import opened EvidenceMetrics
  import opened EvidenceDocument
  import Sorting

  /** What loading a run directory gives; `Unreadable` is any RunObservabilityError. */
  datatype Loaded = Unreadable | Readable(artifacts: Artifacts)

  /** The run directories by name. */
  type Store = map<string, Loaded>

  /** `selected` is the run asked for, if any; without `evidence` that part is left out. */
  datatype Request = Request(root: string, selected: Option<string>, evidence: Option<seq<EvidenceFile>>)

  predicate Renders(l: Loaded) {
    l.Readable? && RunFault(l.artifacts).None?
  }

  function UnknownRun(id: string, root: string): string {
    "tradingchassis_ops_lab: run_id " + id + " not found or unreadable under " + root
  }

  function NoRuns(root: string): string {
    "tradingchassis_ops_lab: no run artifacts found under " + root
  }

  function SkippedRun(id: string): string {
    "tradingchassis_ops_lab: skipped run_id " + id + Reason()
  }

  function Reason(): string {
    " due to missing or malformed artifacts"
  }

  /** The lines of one run, or the comment that stands for it. */
  ghost function RunPart(l: Loaded, comment: string, stamper: Stamper): seq<Line> {
    if Renders(l) then RunLines(l.artifacts, stamper) else [CommentLine(comment)]
  }

  ghost function Parts(ids: seq<string>, store: Store, stamper: Stamper): seq<Line>
    requires forall id <- ids :: id in store
  {
    if ids == [] then []
    else
      var last := ids[|ids| - 1];
      Parts(ids[..|ids| - 1], store, stamper) + RunPart(store[last], SkippedRun(last), stamper)
  }

  ghost function EvidencePart(r: Request): seq<Line> {
    if r.evidence.Some? then EvidenceLines(r.evidence.value) else []
  }

  function Lookup(store: Store, id: string): Loaded {
    if id in store then store[id] else Unreadable
  }

  ghost function RunsPart(r: Request, store: Store, stamper: Stamper): seq<Line> {
    if r.selected.Some? then RunPart(Lookup(store, r.selected.value), UnknownRun(r.selected.value, r.root), stamper)
    else if store == map[] then [CommentLine(NoRuns(r.root))]
    else
      Sorting.SortedStringsShape(store.Keys);
      Parts(Sorting.SortedStrings(store.Keys), store, stamper)
  }

  ghost function MetricsLines(r: Request, store: Store, stamper: Stamper): seq<Line> {
    RunsPart(r, store, stamper) + EvidencePart(r)
  }

  // ---------------------------------------------------------------- which runs are written

  /** The sample lines of a run and the comments of its drill reports, or one comment in its place. */
  ghost predicate Stands(part: seq<Line>, store: Store, id: string, stamper: Stamper, instead: string) {
    if id in store && store[id].Readable? && RunFault(store[id].artifacts).None? then
      var a := store[id].artifacts;
      && |part| == |RunMetrics.RunMetrics(a, stamper)| + |a.skipComments|
      && (forall i :: 0 <= i < |RunMetrics.RunMetrics(a, stamper)| ==>
            part[i] == SampleLine(ToSample(RunMetrics.RunMetrics(a, stamper)[i])))
      && (forall i :: 0 <= i < |a.skipComments| ==>
            part[|RunMetrics.RunMetrics(a, stamper)| + i] == CommentLine(a.skipComments[i]))
    else part == [CommentLine(instead)]
  }

  lemma PartStands(store: Store, id: string, stamper: Stamper, instead: string)
    ensures Stands(RunPart(Lookup(store, id), instead, stamper), store, id, stamper, instead)
  {
    hide RunFault, RunMetrics.RunMetrics, ToSample;
  }

  /** A selected run is the one of that name in the store; if it is not there or cannot be rendered, a comment says
      so. The evidence comes last, if it is asked for. */
  lemma SelectedRun(r: Request, store: Store, stamper: Stamper)
    requires r.selected.Some?
    ensures MetricsLines(r, store, stamper) ==
      RunsPart(r, store, stamper) + if r.evidence.Some? then EvidenceLines(r.evidence.value) else []
    ensures var id := r.selected.value;
      Stands(RunsPart(r, store, stamper), store, id, stamper,
        "tradingchassis_ops_lab: run_id " + id + " not found or unreadable under " + r.root)
  {
    hide RunFault, RunMetrics.RunMetrics, ToSample, Stands, RunPart, Lookup;
    PartStands(store, r.selected.value, stamper, UnknownRun(r.selected.value, r.root));
  }

  /** Parts one after the other. */
  ghost function Flat(parts: seq<seq<Line>>): seq<Line> {
    if parts == [] then [] else Flat(parts[..|parts| - 1]) + parts[|parts| - 1]
  }

  lemma {:induction false} PartsFlat(ids: seq<string>, store: Store, stamper: Stamper) returns (parts: seq<seq<Line>>)
    requires forall id <- ids :: id in store
    ensures |parts| == |ids| && Parts(ids, store, stamper) == Flat(parts)
    ensures forall i :: 0 <= i < |ids| ==> Stands(parts[i], store, ids[i], stamper, SkippedRun(ids[i]))
  {
    hide RunFault, RunMetrics.RunMetrics, ToSample, Stands, RunPart, SkippedRun;
    if ids == [] {
      parts := [];
    } else {
      var last := ids[|ids| - 1];
      var front := PartsFlat(ids[..|ids| - 1], store, stamper);
      PartStands(store, last, stamper, SkippedRun(last));
      assert Lookup(store, last) == store[last];
      parts := front + [RunPart(store[last], SkippedRun(last), stamper)];
      assert parts[..|parts| - 1] == front;
    }
  }

  /** Without a selection every run directory is written once, in ascending order of names, and one that cannot be
      rendered is replaced by a comment; if there is none, one comment says so. */
  lemma AllRuns(r: Request, store: Store, stamper: Stamper) returns (ids: seq<string>, parts: seq<seq<Line>>)
    requires r.selected.None?
    ensures MetricsLines(r, store, stamper) ==
      RunsPart(r, store, stamper) + if r.evidence.Some? then EvidenceLines(r.evidence.value) else []
    ensures store == map[] ==>
      RunsPart(r, store, stamper) == [CommentLine("tradingchassis_ops_lab: no run artifacts found under " + r.root)]
    ensures store != map[] ==> RunsPart(r, store, stamper) == Flat(parts)
    ensures (forall id :: id in ids <==> id in store) && |parts| == |ids|
    ensures forall i, j :: 0 <= i < j < |ids| ==> ids[i] != ids[j] && Sorting.StringLe(ids[i], ids[j])
    ensures forall i :: 0 <= i < |ids| ==>
      Stands(parts[i], store, ids[i], stamper,
        "tradingchassis_ops_lab: skipped run_id " + ids[i] + " due to missing or malformed artifacts")
  {
    hide RunFault, RunMetrics.RunMetrics, ToSample, Stands, Parts, Flat, Sorting.SortedStrings, Sorting.StringLe;
    ids := Sorting.SortedStrings(store.Keys);
    Sorting.SortedStringsShape(store.Keys);
    parts := PartsFlat(ids, store, stamper);
    forall i | 0 <= i < |ids|
      ensures SkippedRun(ids[i])
        == "tradingchassis_ops_lab: skipped run_id " + ids[i] + " due to missing or malformed artifacts"
    {
      SkippedSaid(ids[i]);
    }
  }

  lemma SkippedSaid(id: string)
    ensures SkippedRun(id) == "tradingchassis_ops_lab: skipped run_id " + id + " due to missing or malformed artifacts"
  {
  }

  // ---------------------------------------------------------------- the renderer

  lemma OneComment(comment: string)
    ensures Document(Texts([CommentLine(comment)])) == "# " + comment + "\n"
  {
    assert [CommentLine(comment)][1..] == [];
    assert Texts([CommentLine(comment)]) == ["# " + comment] + [];
    assert ["# " + comment][1..] == [];
    assert "# " + comment + "\n" + "" == "# " + comment + "\n";
  }

  lemma Joined(a: seq<Line>, b: seq<Line>)
    ensures Document(Texts(a + b)) == Document(Texts(a)) + Document(Texts(b))
  {
    TextsConcat(a, b);
    DocumentConcat(Texts(a), Texts(b));
  }

  /** `export_run_metrics` or, on an error, `_render_comment_only`. */
  method RenderRun(l: Loaded, comment: string, stamper: Stamper) returns (text: string)
    ensures text == Document(Texts(RunPart(l, comment, stamper)))
  {
    hide RunFault, Document, Texts, RunLines;
    if l.Readable? {
      var r := RenderPrometheusText(l.artifacts, stamper);
      if r.Rendered? { return r.text; }
    }
    OneComment(comment);
    text := "# " + comment + "\n";
  }

  method RenderRuns(store: Store, stamper: Stamper) returns (text: string)
    requires store != map[]
    ensures forall id <- Sorting.SortedStrings(store.Keys) :: id in store
    ensures text == Document(Texts(Parts(Sorting.SortedStrings(store.Keys), store, stamper)))
  {
    hide Document, Texts, RunPart, SkippedRun, Sorting.SortedStrings;
    var ids := Sorting.SortStrings(store.Keys);
    Sorting.SortedStringsShape(store.Keys);
    text := RenderEach(ids, store, stamper);
  }

  method RenderEach(ids: seq<string>, store: Store, stamper: Stamper) returns (text: string)
    requires forall id <- ids :: id in store
    ensures text == Document(Texts(Parts(ids, store, stamper)))
  {
    hide RunPart, SkippedRun;
    text := "";
    for i := 0 to |ids|
      invariant text == Document(Texts(Parts(ids[..i], store, stamper)))
    {
      hide Document, Texts;
      assert ids[..i + 1][..i] == ids[..i];
      var part := RenderRun(store[ids[i]], SkippedRun(ids[i]), stamper);
      Joined(Parts(ids[..i], store, stamper), RunPart(store[ids[i]], SkippedRun(ids[i]), stamper));
      text := text + part;
    }
    assert ids[..|ids|] == ids;
  }

  /** `render_metrics_text`. */
  method RenderMetricsText(r: Request, store: Store, stamper: Stamper) returns (text: string)
    ensures text == Document(Texts(MetricsLines(r, store, stamper)))
  {
    var evidence := "";
    if r.evidence.Some? {
      evidence := RenderEvidence(r.evidence.value);
    }
    assert evidence == Document(Texts(EvidencePart(r)));
    hide Document, Texts, RunPart, Parts, EvidencePart, UnknownRun, NoRuns, Sorting.SortedStrings;
    var runs;
    if r.selected.Some? {
      runs := RenderRun(Lookup(store, r.selected.value), UnknownRun(r.selected.value, r.root), stamper);
    } else if store == map[] {
      OneComment(NoRuns(r.root));
      runs := "# " + NoRuns(r.root) + "\n";
    } else {
      runs := RenderRuns(store, stamper);
    }
    Joined(RunsPart(r, store, stamper), EvidencePart(r));
    text := runs + evidence;
  }

  // ---------------------------------------------------------------- what a scraper reads

  function Rendering(ids: seq<string>, store: Store): seq<Artifacts>
    requires forall id <- ids :: id in store
  {
    if ids == [] then []
    else
      var last := store[ids[|ids| - 1]];
      Rendering(ids[..|ids| - 1], store) + (if Renders(last) then [last.artifacts] else [])
  }

  /** The runs that are rendered, in order. */
  ghost function Shown(r: Request, store: Store): seq<Artifacts> {
    if r.selected.Some? then
      var l := Lookup(store, r.selected.value);
      if Renders(l) then [l.artifacts] else []
    else
      Sorting.SortedStringsShape(store.Keys);
      Rendering(Sorting.SortedStrings(store.Keys), store)
  }

  predicate Sound(runs: seq<Artifacts>) {
    forall i :: 0 <= i < |runs| ==> RunFault(runs[i]).None?
  }

  ghost function RunsEmitted(runs: seq<Artifacts>, stamper: Stamper): seq<Metric>
    requires Sound(runs)
  {
    if runs == [] then []
    else RunsEmitted(runs[..|runs| - 1], stamper) + RunMetrics.RunMetrics(runs[|runs| - 1], stamper)
  }

  lemma {:induction false} RenderingSound(ids: seq<string>, store: Store)
    requires forall id <- ids :: id in store
    ensures Sound(Rendering(ids, store))
  {
    hide RunFault;
    if ids != [] {
      RenderingSound(ids[..|ids| - 1], store);
    }
  }

  lemma ShownSound(r: Request, store: Store)
    ensures Sound(Shown(r, store))
  {
    hide RunFault;
    Sorting.SortedStringsShape(store.Keys);
    RenderingSound(Sorting.SortedStrings(store.Keys), store);
  }

  ghost function EvidenceShown(r: Request): seq<Metric> {
    if r.evidence.Some? then EvidenceEmitted(r.evidence.value) else []
  }

  /** All metrics of a document. */
  ghost function Emitted(r: Request, store: Store, stamper: Stamper): seq<Metric> {
    ShownSound(r, store);
    RunsEmitted(Shown(r, store), stamper) + EvidenceShown(r)
  }

  predicate PartClean(l: Loaded, comment: string) {
    if Renders(l) then PlainCounts(l.artifacts) && AllContained(l.artifacts.skipComments) else Contained(comment)
  }

  predicate RunsClean(r: Request, store: Store) {
    if r.selected.Some? then PartClean(Lookup(store, r.selected.value), UnknownRun(r.selected.value, r.root))
    else if store == map[] then Contained(NoRuns(r.root))
    else forall id <- store.Keys :: PartClean(store[id], SkippedRun(id))
  }

  /** No boolean where a count is expected, and no name or path that breaks out of its comment. */
  predicate Clean(r: Request, store: Store) {
    RunsClean(r, store) && (r.evidence.Some? ==> AllContained(SkipComments(TotalsOf(r.evidence.value).skipped)))
  }

  /** `lines` can be printed, carry these samples, and parse back exactly if `clean` holds. */
  predicate Carries(lines: seq<Line>, ms: seq<Metric>, clean: bool) {
    Printable(lines) && SamplesOf(lines) == Samples(ms) && (WellBehaved(lines) <==> clean)
  }

  lemma SamplesConcat(ms: seq<Metric>, ns: seq<Metric>)
    ensures Samples(ms + ns) == Samples(ms) + Samples(ns)
  {
    hide ToSample;
  }

  lemma CarriesConcat(a: seq<Line>, b: seq<Line>, ms: seq<Metric>, ns: seq<Metric>, p: bool, q: bool)
    requires Carries(a, ms, p) && Carries(b, ns, q)
    ensures Carries(a + b, ms + ns, p && q)
  {
    hide Printable, WellBehaved, SamplesOf, Samples, Texts;
    SamplesOfConcat(a, b);
    SamplesConcat(ms, ns);
    BehaveConcat(a, b);
  }

  lemma BehaveConcat(a: seq<Line>, b: seq<Line>)
    ensures Printable(a + b) <==> Printable(a) && Printable(b)
    ensures WellBehaved(a + b) <==> WellBehaved(a) && WellBehaved(b)
  {
    hide ValidNames, IsToken, IsNumber, Contained;
    var c := a + b;
    assert forall i :: 0 <= i < |a| ==> c[i] == a[i];
    assert forall i :: 0 <= i < |b| ==> c[|a| + i] == b[i];
  }

  lemma LinesCarry(ms: seq<Metric>, comments: seq<string>)
    ensures Carries(LinesOf(ms, comments), ms, Numeric(ms) && AllContained(comments))
  {
    hide LinesOf, Samples, SamplesOf, Printable, WellBehaved, Numeric, AllContained;
    LinesWellBehaved(ms, comments);
    SamplesOfLines(ms, comments);
  }

  lemma CommentCarries(comment: string)
    ensures Carries([CommentLine(comment)], [], Contained(comment))
  {
    hide Contained;
    LinesCarry([], [comment]);
    assert LinesOf([], [comment]) == [CommentLine(comment)];
    assert AllContained([comment]) <==> Contained([comment][0]);
  }

  lemma PartCarries(l: Loaded, comment: string, stamper: Stamper)
    ensures Carries(RunPart(l, comment, stamper),
      if Renders(l) then RunMetrics.RunMetrics(l.artifacts, stamper) else [], PartClean(l, comment))
  {
    hide Carries, RunMetrics.RunMetrics, RunFault, PlainCounts, AllContained, Contained, LinesOf, Numeric;
    if Renders(l) {
      RunApart(l.artifacts, stamper);
      LinesCarry(RunMetrics.RunMetrics(l.artifacts, stamper), l.artifacts.skipComments);
    } else {
      CommentCarries(comment);
    }
  }

  lemma {:induction false} PartsCarry(ids: seq<string>, store: Store, stamper: Stamper)
    requires forall id <- ids :: id in store
    ensures Sound(Rendering(ids, store))
    ensures Carries(Parts(ids, store, stamper), RunsEmitted(Rendering(ids, store), stamper),
      forall id <- ids :: PartClean(store[id], SkippedRun(id)))
  {
    hide Carries, RunMetrics.RunMetrics, RunFault, PartClean, SkippedRun, RunPart;
    if ids == [] {
      NothingCarried();
    } else {
      var front, last := ids[..|ids| - 1], ids[|ids| - 1];
      PartsCarry(front, store, stamper);
      PartCarries(store[last], SkippedRun(last), stamper);
      var ms := RunsEmitted(Rendering(front, store), stamper);
      var p := forall id <- front :: PartClean(store[id], SkippedRun(id));
      var ns := if Renders(store[last]) then RunMetrics.RunMetrics(store[last].artifacts, stamper) else [];
      CarriesConcat(Parts(front, store, stamper), RunPart(store[last], SkippedRun(last), stamper), ms, ns,
        p, PartClean(store[last], SkippedRun(last)));
      assert ms + ns == RunsEmitted(Rendering(ids, store), stamper) by { EmittedSnoc(front, last, store, stamper); }
      assert ids == front + [last];
    }
  }

  lemma NothingCarried()
    ensures Carries([], [], true)
  {
  }

  lemma EmittedSnoc(front: seq<string>, last: string, store: Store, stamper: Stamper)
    requires last in store && forall id <- front :: id in store
    requires Sound(Rendering(front, store)) && Sound(Rendering(front + [last], store))
    ensures RunsEmitted(Rendering(front + [last], store), stamper) == RunsEmitted(Rendering(front, store), stamper)
      + if Renders(store[last]) then RunMetrics.RunMetrics(store[last].artifacts, stamper) else []
  {
    hide RunMetrics.RunMetrics, RunFault;
    assert (front + [last])[..|front|] == front;
    var runs := Rendering(front, store);
    if Renders(store[last]) {
      assert (runs + [store[last].artifacts])[..|runs|] == runs;
    } else {
      assert runs + [] == runs;
    }
  }

  lemma RunsCarry(r: Request, store: Store, stamper: Stamper)
    ensures Sound(Shown(r, store))
    ensures Carries(RunsPart(r, store, stamper), RunsEmitted(Shown(r, store), stamper), RunsClean(r, store))
  {
    hide Carries, RunMetrics.RunMetrics, RunFault, PartClean, SkippedRun, RunPart, UnknownRun, NoRuns;
    ShownSound(r, store);
    if r.selected.Some? {
      var l := Lookup(store, r.selected.value);
      PartCarries(l, UnknownRun(r.selected.value, r.root), stamper);
      if Renders(l) {
        assert [l.artifacts][..0] == [];
        assert [] + RunMetrics.RunMetrics(l.artifacts, stamper) == RunMetrics.RunMetrics(l.artifacts, stamper);
      }
    } else if store == map[] {
      CommentCarries(NoRuns(r.root));
      assert store.Keys == {};
    } else {
      Sorting.SortedStringsShape(store.Keys);
      PartsCarry(Sorting.SortedStrings(store.Keys), store, stamper);
    }
  }

  lemma EvidenceCarries(r: Request)
    ensures Carries(EvidencePart(r), EvidenceShown(r),
      r.evidence.Some? ==> AllContained(SkipComments(TotalsOf(r.evidence.value).skipped)))
  {
    hide Carries, EvidenceLines, EvidenceEmitted, LinesOf, Numeric, AllContained, SkipComments, TotalsOf;
    NothingCarried();
    if r.evidence.Some? {
      var files := r.evidence.value;
      EvidenceAsLines(files);
      LinesCarry(EvidenceEmitted(files), SkipComments(TotalsOf(files).skipped));
    }
  }

  /** Main result on the format: a scraper reads the document as exactly the samples of the rendered runs and
      of the evidence, in order, and as nothing else, if and only if every emitted count is a number and no
      path, run name or comment breaks out of its comment line. */
  lemma DocumentRead(r: Request, store: Store, stamper: Stamper)
    ensures ReadsAs(Document(Texts(MetricsLines(r, store, stamper))), Samples(Emitted(r, store, stamper)))
       <==> Clean(r, store)
  {
    RunsCarry(r, store, stamper);
    EvidenceCarries(r);
    CarriesConcat(RunsPart(r, store, stamper), EvidencePart(r), RunsEmitted(Shown(r, store), stamper), EvidenceShown(r),
      RunsClean(r, store), r.evidence.Some? ==> AllContained(SkipComments(TotalsOf(r.evidence.value).skipped)));
    DocumentRoundTrip(MetricsLines(r, store, stamper));
    hide RunsPart, EvidencePart, RunsEmitted, Shown, EvidenceShown, RunsClean, AllContained, SkipComments, TotalsOf;
    hide Document, ReadsAs, Texts, Samples, SamplesOf, Printable, WellBehaved;
  }

  // ---------------------------------------------------------------- documents that are not read back

  lemma ReasonOneLine()
    ensures OneLine(Reason()) && OneLine("tradingchassis_ops_lab: skipped run_id ")
  {
  }

  lemma OneHiddenLine(line: string)
    requires OneLine(line)
    ensures Hidden(line) <==> Ignorable(line)
  {
    hide Ignorable;
    SpanToken(line, "", NotLineFeed);
    assert line + "" == line && line[..|line|] == line;
  }

  /** A name with one line break leaves its comment unless what follows is itself a comment. */
  lemma SplitName(head: string, tail: string)
    requires OneLine(head) && OneLine(tail)
    ensures Contained(SkippedRun(head + "\n" + tail)) ==> Ignorable(tail + Reason())
  {
    hide Hidden, Contained, Declares, Ignorable, Reason;
    var before := "tradingchassis_ops_lab: skipped run_id ";
    ReasonOneLine();
    assert OneLine(before + head) && OneLine(tail + Reason());
    assert SkippedRun(head + "\n" + tail) == (before + head) + "\n" + (tail + Reason());
    ContainedSplit(before + head, tail + Reason());
    OneHiddenLine(tail + Reason());
  }

  lemma OneBadName(name: string, stamper: Stamper)
    requires !Contained(SkippedRun(name))
    ensures var r, store := Request("runs", None, None), map[name := Unreadable];
      !ReadsAs(Document(Texts(MetricsLines(r, store, stamper))), Samples(Emitted(r, store, stamper)))
  {
    hide Contained, SkippedRun, MetricsLines, Emitted, ReadsAs;
    var r, store := Request("runs", None, None), map[name := Unreadable];
    assert name in store.Keys && !PartClean(store[name], SkippedRun(name));
    DocumentRead(r, store, stamper);
  }

  /** An unreadable run directory whose name has a line break: the rest of the comment is no comment. */
  lemma BrokenName(stamper: Stamper)
    ensures var r, store := Request("runs", None, None), map["x\ny" := Unreadable];
      !ReadsAs(Document(Texts(MetricsLines(r, store, stamper))), Samples(Emitted(r, store, stamper)))
  {
    hide MetricsLines, Emitted, ReadsAs, SkippedRun, Contained, Reason;
    assert "x" + "\n" + "y" == "x\ny";
    SplitName("x", "y");
    NoBlanks("y" + Reason());
    OneBadName("x\ny", stamper);
  }

  lemma TypeDeclares(rest: string)
    ensures !Ignorable("# TYPE " + rest)
  {
    hide Ignorable, FirstWord;
    FirstWordIs("TYPE", rest);
    CommentIgnorable("TYPE" + " " + rest);
    assert "# " + ("TYPE" + " " + rest) == "# TYPE " + rest;
  }

  /** So does one that goes on like a declaration: what follows is no legal TYPE line. */
  lemma DeclaringName(stamper: Stamper)
    ensures var r, store := Request("runs", None, None), map["x\n# TYPE y" := Unreadable];
      !ReadsAs(Document(Texts(MetricsLines(r, store, stamper))), Samples(Emitted(r, store, stamper)))
  {
    hide MetricsLines, Emitted, ReadsAs, SkippedRun, Contained, Reason, Ignorable;
    assert "x" + "\n" + "# TYPE y" == "x\n# TYPE y";
    SplitName("x", "# TYPE y");
    TypeDeclares("y" + Reason());
    assert "# TYPE y" + Reason() == "# TYPE " + ("y" + Reason());
    OneBadName("x\n# TYPE y", stamper);
  }
}
