/** The evidence part of the metrics document (observability/metrics.py, _render_evidence_metrics_text):
    counters aggregated over many files. */
module EvidenceMetrics {
  import opened Decimals
  import opened MetricNames
  import opened PrometheusText
  import opened MetricSeries
  import opened RunMetrics
  import Sorting
  import Text

  /** What the renderer looks at in one file. `None` stands for a missing field or one of another type,
      lists are given by their lengths where only these matter, presence by its truth values. */
  datatype Evidence = Evidence(
    status: Option<string>, gaps: Option<nat>, shared: Option<nat>,
    backtest: Option<map<string, bool>>, paper: Option<map<string, bool>>, fields: seq<Option<string>>)

  /** A discovered file; without content if it is unreadable, malformed or no JSON object. */
  datatype EvidenceFile = EvidenceFile(path: string, content: Option<Evidence>)

  datatype Totals = Totals(
    statuses: multiset<string>, presence: multiset<(string, string)>, gaps: nat, shared: nat,
    classes: multiset<string>, skipped: seq<string>)

  const ZERO := Totals(multiset{}, multiset{}, 0, 0, multiset{}, [])

  // ---------------------------------------------------------------- aggregation

  function StatusOf(e: Evidence): multiset<string> {
    if Usable(e.status) then multiset{Text.Strip(e.status.value)} else multiset{}
  }

  function SidePresence(side: string, present: Option<map<string, bool>>): multiset<(string, string)> {
    if present.None? then multiset{}
    else multiset(set name <- present.value.Keys | present.value[name] :: (side, name))
  }

  function PresenceOf(e: Evidence): multiset<(string, string)> {
    SidePresence("backtest", e.backtest) + SidePresence("paper", e.paper)
  }

  function Classes(fields: seq<Option<string>>): multiset<string> {
    if fields == [] then multiset{}
    else
      var last := fields[|fields| - 1];
      Classes(fields[..|fields| - 1]) + (if Usable(last) then multiset{Text.Strip(last.value)} else multiset{})
  }

  function Length(n: Option<nat>): nat {
    if n.None? then 0 else n.value
  }

  function AddFile(t: Totals, f: EvidenceFile): Totals {
    match f.content
    case None => t.(skipped := t.skipped + [f.path])
    case Some(e) =>
      Totals(t.statuses + StatusOf(e), t.presence + PresenceOf(e), t.gaps + Length(e.gaps),
             t.shared + Length(e.shared), t.classes + Classes(e.fields), t.skipped)
  }

  function TotalsOf(files: seq<EvidenceFile>): Totals {
    if files == [] then ZERO else AddFile(TotalsOf(files[..|files| - 1]), files[|files| - 1])
  }

  /** The marks the loop over the sorted names adds. */
  function Marks(side: string, names: seq<string>, present: map<string, bool>): multiset<(string, string)>
    requires forall n <- names :: n in present
  {
    if names == [] then multiset{}
    else
      var last := names[|names| - 1];
      Marks(side, names[..|names| - 1], present) + (if present[last] then multiset{(side, last)} else multiset{})
  }

  lemma {:induction false} MarksCount(side: string, names: seq<string>, present: map<string, bool>, p: (string, string))
    requires forall n <- names :: n in present
    requires forall i, j :: 0 <= i < j < |names| ==> names[i] != names[j]
    ensures Marks(side, names, present)[p] == if p.0 == side && p.1 in names && present[p.1] then 1 else 0
  {
    if names != [] {
      var front, last := names[..|names| - 1], names[|names| - 1];
      MarksCount(side, front, present, p);
      assert p.1 in names <==> p.1 in front || p.1 == last;
      assert p == (p.0, p.1);
    }
  }

  lemma MarksAll(side: string, names: seq<string>, present: map<string, bool>)
    requires forall n :: n in names <==> n in present.Keys
    requires forall i, j :: 0 <= i < j < |names| ==> names[i] != names[j]
    ensures Marks(side, names, present) == SidePresence(side, Some(present))
  {
    hide Marks;
    var marked := set name <- present.Keys | present[name] :: (side, name);
    forall p ensures Marks(side, names, present)[p] == multiset(marked)[p] {
      MarksCount(side, names, present, p);
      assert p == (p.0, p.1);
    }
  }

  method CountPresence(side: string, present: map<string, bool>, before: multiset<(string, string)>)
    returns (counts: multiset<(string, string)>)
    ensures counts == before + SidePresence(side, Some(present))
  {
    hide SidePresence, Marks, Sorting.SortedStrings;
    var names := Sorting.SortStrings(present.Keys);
    Sorting.SortedStringsShape(present.Keys);
    counts := CountMarks(side, names, present, before);
    MarksAll(side, names, present);
  }

  method CountMarks(side: string, names: seq<string>, present: map<string, bool>, before: multiset<(string, string)>)
    returns (counts: multiset<(string, string)>)
    requires forall n <- names :: n in present
    ensures counts == before + Marks(side, names, present)
  {
    counts := before;
    for i := 0 to |names|
      invariant counts == before + Marks(side, names[..i], present)
    {
      assert names[..i + 1][..i] == names[..i];
      if present[names[i]] {
        counts := counts + multiset{(side, names[i])};
      }
    }
    assert names[..|names|] == names;
  }

  method CountClasses(fields: seq<Option<string>>, before: multiset<string>) returns (counts: multiset<string>)
    ensures counts == before + Classes(fields)
  {
    counts := before;
    for i := 0 to |fields|
      invariant counts == before + Classes(fields[..i])
    {
      assert fields[..i + 1][..i] == fields[..i];
      if Usable(fields[i]) {
        counts := counts + multiset{Text.Strip(fields[i].value)};
      }
    }
    assert fields[..|fields|] == fields;
  }

  method CountSides(e: Evidence, before: multiset<(string, string)>) returns (counts: multiset<(string, string)>)
    ensures counts == before + PresenceOf(e)
  {
    counts := before;
    if e.backtest.Some? {
      counts := CountPresence("backtest", e.backtest.value, counts);
    }
    if e.paper.Some? {
      counts := CountPresence("paper", e.paper.value, counts);
    }
  }

  /** What one well-formed file adds. */
  method CountFile(f: EvidenceFile, t: Totals) returns (r: Totals)
    requires f.content.Some?
    ensures r == AddFile(t, f)
  {
    hide Text.NonBlank, Text.Strip, PresenceOf, Classes;
    var e := f.content.value;
    var statuses, presence, gaps, shared := t.statuses, t.presence, t.gaps, t.shared;
    if Usable(e.status) {
      statuses := statuses + multiset{Text.Strip(e.status.value)};
    }
    if e.gaps.Some? {
      gaps := gaps + e.gaps.value;
    }
    if e.shared.Some? {
      shared := shared + e.shared.value;
    }
    presence := CountSides(e, presence);
    var classes := CountClasses(e.fields, t.classes);
    r := Totals(statuses, presence, gaps, shared, classes, t.skipped);
  }

  /** The aggregation loop. */
  method Aggregate(files: seq<EvidenceFile>) returns (t: Totals)
    ensures t == TotalsOf(files)
  {
    hide StatusOf, PresenceOf, Classes, Length;
    t := ZERO;
    for i := 0 to |files|
      invariant t == TotalsOf(files[..i])
    {
      assert files[..i + 1][..i] == files[..i];
      if files[i].content.None? {
        t := t.(skipped := t.skipped + [files[i].path]);
      } else {
        t := CountFile(files[i], t);
      }
    }
    assert files[..|files|] == files;
  }

  // ---------------------------------------------------------------- emission

  function StatusValue(status: string): int {
    if status == "differences_expected" then 1
    else if status == "matched_operational_context" then 2
    else if status == "missing_artifacts" then 3
    else if status == "incompatible_runs" then 4
    else -1
  }

  function StatusPair(status: string, count: nat): seq<Metric> {
    [ Metric(EvidenceStatusTotal, [(ComparisonStatus, status)], Integral(IntCount(count))),
      Metric(EvidenceStatus, [(ComparisonStatus, status)], Integral(IntCount(StatusValue(status)))) ]
  }

  function StatusMetrics(names: seq<string>, counts: multiset<string>): seq<Metric> {
    if names == [] then []
    else
      var last := names[|names| - 1];
      StatusMetrics(names[..|names| - 1], counts) + StatusPair(last, counts[last])
  }

  function ArtifactMetrics(pairs: seq<(string, string)>, counts: multiset<(string, string)>): seq<Metric> {
    seq(|pairs|, i requires 0 <= i < |pairs| =>
      Metric(EvidenceArtifacts, [(Side, pairs[i].0), (Artifact, pairs[i].1)], Integral(IntCount(counts[pairs[i]]))))
  }

  function ClassMetrics(names: seq<string>, counts: multiset<string>): seq<Metric> {
    seq(|names|, i requires 0 <= i < |names| =>
      Metric(EvidenceComparedFields, [(Classification, names[i])], Integral(IntCount(counts[names[i]]))))
  }

  function Pairs(counts: multiset<(string, string)>): set<(string, string)> {
    set e <- counts
  }

  function Counter(family: Family, n: nat): seq<Metric> {
    [Metric(family, [], Integral(IntCount(n)))]
  }

  ghost function EvidenceOf(t: Totals): seq<Metric> {
    StatusMetrics(Sorting.SortedStrings(Names(t.statuses)), t.statuses)
    + ArtifactMetrics(Sorting.SortedPairs(Pairs(t.presence)), t.presence)
    + Counter(EvidenceKnownGaps, t.gaps)
    + Counter(EvidenceSharedEvents, t.shared)
    + ClassMetrics(Sorting.SortedStrings(Names(t.classes)), t.classes)
  }

  function SkippedEvidence(path: string): string {
    "tradingchassis_ops_lab: skipped evidence artifact due to malformed JSON " + path
  }

  /** The comment text loses the line feeds it ends with. */
  function SkipComment(path: string): string {
    RStripChar(SkippedEvidence(path), '\n')
  }

  function SkipComments(paths: seq<string>): seq<string> {
    seq(|paths|, i requires 0 <= i < |paths| => SkipComment(paths[i]))
  }

  /** Nothing at all is written when nothing was found, not even zero counters. */
  ghost function EvidenceLines(files: seq<EvidenceFile>): seq<Line> {
    var t := TotalsOf(files);
    if t == ZERO then [] else LinesOf(EvidenceOf(t), SkipComments(t.skipped))
  }

  lemma {:induction false} StripLineFeeds(head: string, s: string)
    requires head != "" && head[|head| - 1] != '\n'
    ensures RStripChar(head + s, '\n') == head + RStripChar(s, '\n')
  {
    if s == "" {
      assert head + s == head;
    } else {
      assert (head + s)[..|head + s| - 1] == head + s[..|s| - 1];
      assert (head + s)[|head + s| - 1] == s[|s| - 1];
      StripLineFeeds(head, s[..|s| - 1]);
    }
  }

  method EmitStatuses(lines: LineBuffer, names: seq<string>, counts: multiset<string>)
    requires lines.Valid() && lines.comments == []
    modifies lines
    ensures lines.Valid() && lines.comments == []
    ensures lines.emitted == old(lines.emitted) + StatusMetrics(names, counts)
  {
    hide LineBuffer.Valid, StatusPair;
    ghost var before := lines.emitted;
    for i := 0 to |names|
      invariant lines.Valid() && lines.comments == []
      invariant lines.emitted == before + StatusMetrics(names[..i], counts)
    {
      assert names[..i + 1][..i] == names[..i];
      lines.AppendAll(StatusPair(names[i], counts[names[i]]));
      Associative();
    }
    assert names[..|names|] == names;
  }

  method EmitArtifacts(lines: LineBuffer, pairs: seq<(string, string)>, counts: multiset<(string, string)>)
    requires lines.Valid() && lines.comments == []
    modifies lines
    ensures lines.Valid() && lines.comments == []
    ensures lines.emitted == old(lines.emitted) + ArtifactMetrics(pairs, counts)
  {
    hide LineBuffer.Valid;
    ghost var before := lines.emitted;
    for i := 0 to |pairs|
      invariant lines.Valid() && lines.comments == []
      invariant lines.emitted == before + ArtifactMetrics(pairs[..i], counts)
    {
      var labels := [(Side, pairs[i].0), (Artifact, pairs[i].1)];
      lines.AppendMetric(EvidenceArtifacts, labels, Integral(IntCount(counts[pairs[i]])));
      ghost var done, next := ArtifactMetrics(pairs[..i], counts),
        Metric(EvidenceArtifacts, labels, Integral(IntCount(counts[pairs[i]])));
      assert ArtifactMetrics(pairs[..i + 1], counts) == done + [next];
      assert before + done + [next] == before + (done + [next]);
    }
    assert pairs[..|pairs|] == pairs;
  }

  method EmitClasses(lines: LineBuffer, names: seq<string>, counts: multiset<string>)
    requires lines.Valid() && lines.comments == []
    modifies lines
    ensures lines.Valid() && lines.comments == []
    ensures lines.emitted == old(lines.emitted) + ClassMetrics(names, counts)
  {
    hide LineBuffer.Valid;
    ghost var before := lines.emitted;
    for i := 0 to |names|
      invariant lines.Valid() && lines.comments == []
      invariant lines.emitted == before + ClassMetrics(names[..i], counts)
    {
      lines.AppendMetric(EvidenceComparedFields, [(Classification, names[i])], Integral(IntCount(counts[names[i]])));
      ghost var done, next := ClassMetrics(names[..i], counts),
        Metric(EvidenceComparedFields, [(Classification, names[i])], Integral(IntCount(counts[names[i]])));
      assert ClassMetrics(names[..i + 1], counts) == done + [next];
      assert before + done + [next] == before + (done + [next]);
    }
    assert names[..|names|] == names;
  }

  method EmitSkips(lines: LineBuffer, paths: seq<string>)
    requires lines.Valid() && lines.comments == []
    modifies lines
    ensures lines.Valid() && lines.emitted == old(lines.emitted) && lines.comments == SkipComments(paths)
  {
    hide LineBuffer.Valid, SkippedEvidence, RStripChar;
    for i := 0 to |paths|
      invariant lines.Valid() && lines.emitted == old(lines.emitted)
      invariant lines.comments == SkipComments(paths)[..i]
    {
      var rendered := RStripChar("# " + SkippedEvidence(paths[i]) + "\n", '\n');
      CommentStripped(SkippedEvidence(paths[i]));
      assert rendered == "# " + SkipComment(paths[i]);
      lines.AppendComment(SkipComment(paths[i]));
    }
  }

  lemma CommentStripped(message: string)
    ensures RStripChar("# " + message + "\n", '\n') == "# " + RStripChar(message, '\n')
  {
    var line := "# " + message + "\n";
    assert line[..|line| - 1] == "# " + message && line[|line| - 1] == '\n';
    StripLineFeeds("# ", message);
  }

  method EmitEvidence(lines: LineBuffer, t: Totals)
    requires lines.Valid() && lines.comments == []
    modifies lines
    ensures lines.Valid() && lines.comments == []
    ensures lines.emitted == old(lines.emitted) + EvidenceOf(t)
  {
    hide LineBuffer.Valid, StatusMetrics, ArtifactMetrics, ClassMetrics, Counter, Names, Pairs;
    hide Sorting.SortedStrings, Sorting.SortedPairs;
    ghost var before := lines.emitted;
    var statuses := Sorting.SortStrings(Names(t.statuses));
    EmitStatuses(lines, statuses, t.statuses);
    var pairs := Sorting.SortPairs(Pairs(t.presence));
    EmitArtifacts(lines, pairs, t.presence);
    lines.AppendAll(Counter(EvidenceKnownGaps, t.gaps));
    lines.AppendAll(Counter(EvidenceSharedEvents, t.shared));
    var classes := Sorting.SortStrings(Names(t.classes));
    EmitClasses(lines, classes, t.classes);
    Regroup(before, StatusMetrics(statuses, t.statuses), ArtifactMetrics(pairs, t.presence),
      Counter(EvidenceKnownGaps, t.gaps), Counter(EvidenceSharedEvents, t.shared), ClassMetrics(classes, t.classes));
  }

  lemma Regroup(before: seq<Metric>, a: seq<Metric>, b: seq<Metric>, c: seq<Metric>, d: seq<Metric>, e: seq<Metric>)
    ensures before + a + b + c + d + e == before + (a + b + c + d + e)
  {
    Associative();
  }

  lemma EvidenceNonEmpty(t: Totals)
    ensures EvidenceOf(t) != []
  {
    hide StatusMetrics, ArtifactMetrics, ClassMetrics, Names, Pairs;
  }

  /** `_render_evidence_metrics_text` on the discovered files. */
  method RenderEvidence(files: seq<EvidenceFile>) returns (text: string)
    ensures text == Document(Texts(EvidenceLines(files)))
  {
    var t := Aggregate(files);
    if t == ZERO {
      return "";
    }
    hide LineBuffer.Valid, TotalsOf, EvidenceOf, SkipComments, LinesOf, Texts, Document;
    var lines := new LineBuffer();
    EmitEvidence(lines, t);
    assert lines.emitted == EvidenceOf(t);
    EvidenceNonEmpty(t);
    EmitSkips(lines, t.skipped);
    text := lines.Finish();
  }
}
