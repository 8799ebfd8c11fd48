/** Main results about the evidence part of the metrics document: what each counter means, that the
    order of the files does not matter, and what a scraper reads. */
module EvidenceDocument {
  import opened Decimals
  import opened MetricNames
  import opened PrometheusText
  import opened MetricSeries
  import opened RunMetrics
  import opened EvidenceMetrics
  import RunReport
  import Sorting
  import Text

  // ---------------------------------------------------------------- every counter is a sum over the files

  /** Everything that is counted, and the paths reported as skipped. */
  datatype Tallied =
    | StatusSeen(status: string)
    | ArtifactSeen(side: string, name: string)
    | Gaps
    | SharedEvents
    | ClassSeen(class_: string)
    | Skipped(path: string)

  function Listed(fields: seq<Option<string>>, c: string): set<int> {
    set i | 0 <= i < |fields| && Usable(fields[i]) && Text.Strip(fields[i].value) == c
  }

  predicate HasArtifact(present: Option<map<string, bool>>, name: string) {
    present.Some? && name in present.value && present.value[name]
  }

  /** What a single file is worth; a malformed one is worth nothing but its own mention. */
  function Worth(f: EvidenceFile, k: Tallied): nat {
    match f.content
    case None => if k == Skipped(f.path) then 1 else 0
    case Some(e) =>
      match k
      case StatusSeen(s) => if Usable(e.status) && Text.Strip(e.status.value) == s then 1 else 0
      case ArtifactSeen(side, name) =>
        if (side == "backtest" && HasArtifact(e.backtest, name)) || (side == "paper" && HasArtifact(e.paper, name))
        then 1 else 0
      case Gaps => Length(e.gaps)
      case SharedEvents => Length(e.shared)
      case ClassSeen(c) => |Listed(e.fields, c)|
      case Skipped(_) => 0
  }

  function Sum(files: seq<EvidenceFile>, k: Tallied): nat {
    if files == [] then 0 else Sum(files[..|files| - 1], k) + Worth(files[|files| - 1], k)
  }

  /** What the totals say. */
  function Read(t: Totals, k: Tallied): nat {
    match k
    case StatusSeen(s) => t.statuses[s]
    case ArtifactSeen(side, name) => t.presence[(side, name)]
    case Gaps => t.gaps
    case SharedEvents => t.shared
    case ClassSeen(c) => t.classes[c]
    case Skipped(path) => multiset(t.skipped)[path]
  }

  lemma {:induction false} ClassesListed(fields: seq<Option<string>>, c: string)
    ensures Classes(fields)[c] == |Listed(fields, c)|
  {
    hide Text.NonBlank, Text.Strip;
    if fields != [] {
      var n := |fields| - 1;
      ClassesListed(fields[..n], c);
      ListedFront(fields, c);
      hide Listed;
      if Usable(fields[n]) && Text.Strip(fields[n].value) == c {
        assert n !in Listed(fields[..n], c);
      }
    }
  }

  lemma ListedFront(fields: seq<Option<string>>, c: string)
    requires fields != []
    ensures var n := |fields| - 1;
      && n !in Listed(fields[..n], c)
      && Listed(fields, c) == Listed(fields[..n], c)
           + if Usable(fields[n]) && Text.Strip(fields[n].value) == c then {n} else {}
  {
    hide Text.NonBlank, Text.Strip;
  }

  lemma SideCounted(at: string, present: Option<map<string, bool>>, side: string, name: string)
    ensures SidePresence(at, present)[(side, name)] == if side == at && HasArtifact(present, name) then 1 else 0
  {
    if present.Some? {
      var s := set n <- present.value.Keys | present.value[n] :: (at, n);
      assert (side, name) in s <==> side == at && HasArtifact(present, name);
    }
  }

  lemma PresenceCounted(e: Evidence, side: string, name: string)
    ensures PresenceOf(e)[(side, name)] ==
      if (side == "backtest" && HasArtifact(e.backtest, name)) || (side == "paper" && HasArtifact(e.paper, name))
      then 1 else 0
  {
    hide HasArtifact, SidePresence;
    SideCounted("backtest", e.backtest, side, name);
    SideCounted("paper", e.paper, side, name);
    assert "backtest"[0] != "paper"[0];
  }

  lemma AddedWorth(t: Totals, f: EvidenceFile, k: Tallied)
    ensures Read(AddFile(t, f), k) == Read(t, k) + Worth(f, k)
  {
    hide Text.NonBlank, Text.Strip, HasArtifact, PresenceOf, Classes, Listed;
    if f.content.Some? {
      match k {
        case ArtifactSeen(side, name) => PresenceCounted(f.content.value, side, name);
        case ClassSeen(c) => ClassesListed(f.content.value.fields, c);
        case _ =>
      }
    } else {
      assert multiset(t.skipped + [f.path]) == multiset(t.skipped) + multiset{f.path};
    }
  }

  /** Each counter is the sum over the files of what the single file is worth; in particular each
      malformed file is listed as skipped exactly once and changes no counter. */
  lemma {:induction false} PointwiseSums(files: seq<EvidenceFile>, k: Tallied)
    ensures Read(TotalsOf(files), k) == Sum(files, k)
  {
    hide AddFile, Worth;
    if files == [] {
      hide Read;
      assert Read(ZERO, k) == 0 by { NothingRead(k); }
    } else {
      PointwiseSums(files[..|files| - 1], k);
      AddedWorth(TotalsOf(files[..|files| - 1]), files[|files| - 1], k);
    }
  }

  lemma NothingRead(k: Tallied)
    ensures Read(ZERO, k) == 0
  {
  }

  /** What the evidence part emits for the files. */
  ghost function EvidenceEmitted(files: seq<EvidenceFile>): seq<Metric> {
    if TotalsOf(files) == ZERO then [] else EvidenceOf(TotalsOf(files))
  }

  /** Some file counts for something, or is malformed. */
  ghost predicate SomethingFound(files: seq<EvidenceFile>) {
    exists k :: Sum(files, k) > 0
  }

  // ---------------------------------------------------------------- the order of the files does not matter

  lemma {:induction false} SumConcat(a: seq<EvidenceFile>, b: seq<EvidenceFile>, k: Tallied)
    ensures Sum(a + b, k) == Sum(a, k) + Sum(b, k)
  {
    hide Worth;
    if b == [] {
      assert a + b == a;
    } else {
      var n := |b| - 1;
      assert (a + b)[..|a + b| - 1] == a + b[..n];
      SumConcat(a, b[..n], k);
    }
  }

  lemma SumWithout(files: seq<EvidenceFile>, i: nat, k: Tallied)
    requires i < |files|
    ensures Sum(files, k) == Sum(files[..i] + files[i + 1..], k) + Worth(files[i], k)
  {
    hide Worth;
    assert files == files[..i] + [files[i]] + files[i + 1..];
    SumConcat(files[..i] + [files[i]], files[i + 1..], k);
    SumConcat(files[..i], [files[i]], k);
    SumConcat(files[..i], files[i + 1..], k);
    assert Sum([files[i]], k) == Sum([], k) + Worth(files[i], k);
  }

  lemma TakenOut<T>(s: seq<T>, i: nat)
    requires i < |s|
    ensures multiset(s[..i] + s[i + 1..]) == multiset(s) - multiset{s[i]}
  {
    assert s == s[..i] + [s[i]] + s[i + 1..];
  }

  lemma TakeOut(files: seq<EvidenceFile>, others: seq<EvidenceFile>) returns (i: nat)
    requires files != [] && multiset(files) == multiset(others)
    ensures i < |others| && others[i] == files[|files| - 1]
    ensures multiset(files[..|files| - 1]) == multiset(others[..i] + others[i + 1..])
  {
    var n := |files| - 1;
    TakenOut(files, n);
    assert files[..n] + files[n + 1..] == files[..n];
    assert files[n] in multiset(others);
    i :| 0 <= i < |others| && others[i] == files[n];
    TakenOut(others, i);
  }

  lemma {:induction false} SumPermuted(files: seq<EvidenceFile>, others: seq<EvidenceFile>, k: Tallied)
    requires multiset(files) == multiset(others)
    ensures Sum(files, k) == Sum(others, k)
  {
    hide Worth;
    if files == [] {
      assert |multiset(others)| == 0;
    } else {
      var i := TakeOut(files, others);
      SumWithout(others, i, k);
      SumPermuted(files[..|files| - 1], others[..i] + others[i + 1..], k);
    }
  }

  /** Totals that read the same agree, up to the order of the skipped paths. */
  lemma SameReadings(t: Totals, u: Totals)
    requires forall k :: Read(t, k) == Read(u, k)
    ensures u == t.(skipped := u.skipped) && multiset(t.skipped) == multiset(u.skipped)
    ensures EvidenceOf(t) == EvidenceOf(u)
  {
    hide StatusMetrics, ArtifactMetrics, ClassMetrics, Names, Pairs, Counter;
    forall s ensures t.statuses[s] == u.statuses[s] { assert Read(t, StatusSeen(s)) == Read(u, StatusSeen(s)); }
    forall p: (string, string) ensures t.presence[p] == u.presence[p] {
      assert p == (p.0, p.1) && Read(t, ArtifactSeen(p.0, p.1)) == Read(u, ArtifactSeen(p.0, p.1));
    }
    forall c ensures t.classes[c] == u.classes[c] { assert Read(t, ClassSeen(c)) == Read(u, ClassSeen(c)); }
    forall p ensures multiset(t.skipped)[p] == multiset(u.skipped)[p] {
      assert Read(t, Skipped(p)) == Read(u, Skipped(p));
    }
    assert Read(t, Gaps) == Read(u, Gaps) && Read(t, SharedEvents) == Read(u, SharedEvents);
    assert t.statuses == u.statuses && t.presence == u.presence && t.classes == u.classes;
    assert multiset(t.skipped) == multiset(u.skipped);
    assert u == t.(skipped := u.skipped);
  }

  /** The sample lines do not depend on the order in which the files are found; the comments only follow it. */
  lemma OrderIrrelevant(files: seq<EvidenceFile>, others: seq<EvidenceFile>)
    requires multiset(files) == multiset(others)
    ensures EvidenceOf(TotalsOf(files)) == EvidenceOf(TotalsOf(others))
    ensures multiset(TotalsOf(files).skipped) == multiset(TotalsOf(others).skipped)
    ensures TotalsOf(files) == ZERO <==> TotalsOf(others) == ZERO
    ensures EvidenceEmitted(files) == EvidenceEmitted(others)
  {
    hide EvidenceOf, TotalsOf;
    forall k ensures Read(TotalsOf(files), k) == Read(TotalsOf(others), k) {
      PointwiseSums(files, k);
      PointwiseSums(others, k);
      SumPermuted(files, others, k);
    }
    SameReadings(TotalsOf(files), TotalsOf(others));
    assert |multiset(TotalsOf(files).skipped)| == |TotalsOf(files).skipped|;
    assert |multiset(TotalsOf(others).skipped)| == |TotalsOf(others).skipped|;
  }

  lemma MalformedTotals(files: seq<EvidenceFile>, i: nat)
    requires i < |files| && files[i].content.None?
    ensures var without := files[..i] + files[i + 1..];
      && EvidenceOf(TotalsOf(files)) == EvidenceOf(TotalsOf(without))
      && multiset(TotalsOf(files).skipped) == multiset(TotalsOf(without).skipped) + multiset{files[i].path}
  {
    hide EvidenceOf, TotalsOf;
    var without := files[..i] + files[i + 1..];
    var t := TotalsOf(files);
    var u := TotalsOf(without).(skipped := TotalsOf(without).skipped + [files[i].path]);
    assert multiset(u.skipped) == multiset(TotalsOf(without).skipped) + multiset{files[i].path};
    forall k ensures Read(t, k) == Read(u, k) {
      PointwiseSums(files, k);
      PointwiseSums(without, k);
      SumWithout(files, i, k);
    }
    SameReadings(t, u);
    SkippedUnused(TotalsOf(without), u.skipped);
  }

  lemma SkippedUnused(t: Totals, skipped: seq<string>)
    ensures EvidenceOf(t.(skipped := skipped)) == EvidenceOf(t)
  {
  }

  lemma SkippedEmpty(skipped: seq<string>)
    ensures multiset(skipped) == multiset{} <==> skipped == []
  {
    assert |multiset(skipped)| == |skipped|;
  }

  /** The totals are those of no file at all if and only if nothing is found in the files. */
  lemma ZeroExactly(files: seq<EvidenceFile>)
    ensures TotalsOf(files) == ZERO <==> !SomethingFound(files)
  {
    hide TotalsOf, Sum, Read;
    var t := TotalsOf(files);
    forall k ensures Read(t, k) == Sum(files, k) && Read(ZERO, k) == 0 {
      PointwiseSums(files, k);
      NothingRead(k);
    }
    if !SomethingFound(files) {
      forall k ensures Read(t, k) == Read(ZERO, k) { assert Sum(files, k) == 0; }
      SameReadings(t, ZERO);
      SkippedEmpty(t.skipped);
    }
  }

  /** A malformed file adds one skip comment, and leaves the sample lines as they are if and only if something
      is found in the other files: otherwise it alone makes the two totals be written. */
  lemma MalformedChangesNothing(files: seq<EvidenceFile>, i: nat)
    requires i < |files| && files[i].content.None?
    ensures var without := files[..i] + files[i + 1..];
      && (EvidenceEmitted(files) == EvidenceEmitted(without) <==> SomethingFound(without))
      && multiset(TotalsOf(files).skipped) == multiset(TotalsOf(without).skipped) + multiset{files[i].path}
  {
    hide EvidenceOf, TotalsOf, SomethingFound;
    MalformedTotals(files, i);
    ZeroExactly(files[..i] + files[i + 1..]);
    SkippedEmpty(TotalsOf(files).skipped);
    EvidenceNonEmpty(TotalsOf(files));
  }

  /** So a malformed file changes the sample lines when it is the only one. */
  lemma MalformedAlone(path: string)
    ensures EvidenceEmitted([]) == []
    ensures EvidenceEmitted([EvidenceFile(path, None)]) ==
      Counter(EvidenceKnownGaps, 0) + Counter(EvidenceSharedEvents, 0)
  {
    hide EvidenceOf;
    var files := [EvidenceFile(path, None)];
    assert files[..0] + files[1..] == [];
    MalformedTotals(files, 0);
    SkippedEmpty(TotalsOf(files).skipped);
    NothingEmitted();
  }

  lemma NothingEmitted()
    ensures EvidenceOf(ZERO) == Counter(EvidenceKnownGaps, 0) + Counter(EvidenceSharedEvents, 0)
  {
    Sorting.SortedStringsShape(Names(ZERO.statuses));
    Sorting.SortedPairsShape(Pairs(ZERO.presence));
  }

  // ---------------------------------------------------------------- the document

  predicate Neat(ms: seq<Metric>, lo: nat, hi: nat) {
    InOrder(ms, lo, hi) && AllApart(ms) && Keyed(ms) && Numeric(ms)
  }

  lemma NeatConcat(a: seq<Metric>, b: seq<Metric>, lo: nat, mid: nat, hi: nat)
    requires Neat(a, lo, mid) && Neat(b, mid, hi) && lo <= mid <= hi
    ensures Neat(a + b, lo, hi)
  {
    InOrderConcat(a, b, lo, mid, hi);
    hide InOrder, AllApart, Ordered, IsBool;
  }

  lemma OneLabelApart(m: Metric, n: Metric, k: Key, v: string, w: string)
    requires m.labels == [(k, v)] && n.labels == [(k, w)] && v != w
    ensures Apart(m, n)
  {
    assert m.labels[0] == (k, v) && n.labels[0] == (k, w);
  }

  /** The status metrics by position. */
  lemma {:induction false} StatusAt(names: seq<string>, counts: multiset<string>)
    ensures var ms := StatusMetrics(names, counts);
      && |ms| == 2 * |names|
      && (forall i :: 0 <= i < |names| ==>
           ms[2 * i] == StatusPair(names[i], counts[names[i]])[0]
           && ms[2 * i + 1] == StatusPair(names[i], counts[names[i]])[1])
  {
    hide StatusPair;
    assert forall s, c :: |StatusPair(s, c)| == 2 by { PairLength(); }
    if names != [] {
      StatusAt(names[..|names| - 1], counts);
    }
  }

  lemma PairLength()
    ensures forall s, c :: |StatusPair(s, c)| == 2
  {
  }

  lemma StatusPosition(names: seq<string>, counts: multiset<string>, p: nat)
    requires p < 2 * |names|
    ensures var ms := StatusMetrics(names, counts);
      && |ms| == 2 * |names|
      && ms[p].labels == [(ComparisonStatus, names[p / 2])] && !IsBool(ms[p].value)
      && ms[p].family == if p % 2 == 0 then EvidenceStatusTotal else EvidenceStatus
  {
    hide StatusMetrics, StatusValue;
    StatusAt(names, counts);
    assert p == 2 * (p / 2) || p == 2 * (p / 2) + 1;
  }

  lemma StatusesApart(names: seq<string>, counts: multiset<string>, p: nat, q: nat)
    requires p < q < 2 * |names| && |StatusMetrics(names, counts)| == 2 * |names|
    requires forall i, j :: 0 <= i < j < |names| ==> names[i] != names[j]
    ensures Apart(StatusMetrics(names, counts)[p], StatusMetrics(names, counts)[q])
  {
    hide StatusMetrics, Apart;
    var m, n := StatusMetrics(names, counts)[p], StatusMetrics(names, counts)[q];
    StatusPosition(names, counts, p);
    StatusPosition(names, counts, q);
    if p / 2 == q / 2 {
      FamiliesApart(m, n);
    } else {
      OneLabelApart(m, n, ComparisonStatus, names[p / 2], names[q / 2]);
    }
  }

  lemma NeatStatuses(names: seq<string>, counts: multiset<string>)
    requires forall i, j :: 0 <= i < j < |names| ==> names[i] != names[j]
    ensures Neat(StatusMetrics(names, counts), 30, 31)
  {
    hide StatusMetrics, Apart, IsBool, Ordered, Family.Rank;
    var ms := StatusMetrics(names, counts);
    StatusAt(names, counts);
    forall p | 0 <= p < |ms|
      ensures Ordered(ms[p].labels) && !IsBool(ms[p].value) && ms[p].family.Rank() == 30
    {
      StatusPosition(names, counts, p);
      StatusOrdered(ms[p]);
    }
    forall p, q | 0 <= p < q < |ms| ensures Apart(ms[p], ms[q]) { StatusesApart(names, counts, p, q); }
  }

  lemma StatusOrdered(m: Metric)
    requires |m.labels| == 1 && (m.family == EvidenceStatusTotal || m.family == EvidenceStatus)
    ensures Ordered(m.labels) && m.family.Rank() == 30
  {
  }

  lemma FamiliesApart(m: Metric, n: Metric)
    requires m.family != n.family
    ensures Apart(m, n)
  {
  }

  lemma NeatArtifacts(pairs: seq<(string, string)>, counts: multiset<(string, string)>)
    requires forall i, j :: 0 <= i < j < |pairs| ==> pairs[i] != pairs[j]
    ensures Neat(ArtifactMetrics(pairs, counts), 31, 32)
  {
    var ms := ArtifactMetrics(pairs, counts);
    forall i, j | 0 <= i < j < |ms| ensures Apart(ms[i], ms[j]) {
      assert ms[i].labels[0].1 == pairs[i].0 && ms[i].labels[1].1 == pairs[i].1;
      assert ms[j].labels[0].1 == pairs[j].0 && ms[j].labels[1].1 == pairs[j].1;
      assert pairs[i] == (pairs[i].0, pairs[i].1) && pairs[j] == (pairs[j].0, pairs[j].1);
    }
  }

  lemma NeatClasses(names: seq<string>, counts: multiset<string>)
    requires forall i, j :: 0 <= i < j < |names| ==> names[i] != names[j]
    ensures Neat(ClassMetrics(names, counts), 34, 35)
  {
    hide Apart;
    var ms := ClassMetrics(names, counts);
    forall i, j | 0 <= i < j < |ms| ensures Apart(ms[i], ms[j]) {
      OneLabelApart(ms[i], ms[j], Classification, names[i], names[j]);
    }
  }

  lemma NeatCounter(family: Family, n: nat)
    ensures Neat(Counter(family, n), family.Rank(), family.Rank() + 1)
  {
  }

  /** What follows the statuses. */
  ghost function CountersOf(t: Totals): seq<Metric> {
    ArtifactMetrics(Sorting.SortedPairs(Pairs(t.presence)), t.presence)
    + Counter(EvidenceKnownGaps, t.gaps)
    + Counter(EvidenceSharedEvents, t.shared)
    + ClassMetrics(Sorting.SortedStrings(Names(t.classes)), t.classes)
  }

  lemma NeatCounters(t: Totals)
    ensures Neat(CountersOf(t), 31, 35)
  {
    hide Neat, ArtifactMetrics, ClassMetrics, Names, Pairs, Counter, Sorting.SortedStrings, Sorting.SortedPairs;
    var classes, pairs := Sorting.SortedStrings(Names(t.classes)), Sorting.SortedPairs(Pairs(t.presence));
    Sorting.SortedStringsShape(Names(t.classes));
    Sorting.SortedPairsShape(Pairs(t.presence));
    NeatArtifacts(pairs, t.presence);
    NeatCounter(EvidenceKnownGaps, t.gaps);
    NeatCounter(EvidenceSharedEvents, t.shared);
    NeatClasses(classes, t.classes);
    var ms := ArtifactMetrics(pairs, t.presence);
    NeatConcat(ms, Counter(EvidenceKnownGaps, t.gaps), 31, 32, 33);
    ms := ms + Counter(EvidenceKnownGaps, t.gaps);
    NeatConcat(ms, Counter(EvidenceSharedEvents, t.shared), 31, 33, 34);
    ms := ms + Counter(EvidenceSharedEvents, t.shared);
    NeatConcat(ms, ClassMetrics(classes, t.classes), 31, 34, 35);
  }

  lemma NeatEvidence(t: Totals)
    ensures Neat(EvidenceOf(t), 30, 35)
  {
    hide Neat, StatusMetrics, ArtifactMetrics, ClassMetrics, Names, Pairs, Counter;
    hide Sorting.SortedStrings, Sorting.SortedPairs;
    var statuses := Sorting.SortedStrings(Names(t.statuses));
    Sorting.SortedStringsShape(Names(t.statuses));
    NeatStatuses(statuses, t.statuses);
    NeatCounters(t);
    NeatConcat(StatusMetrics(statuses, t.statuses), CountersOf(t), 30, 31, 35);
    assert EvidenceOf(t) == StatusMetrics(statuses, t.statuses) + CountersOf(t) by { Associative(); }
  }

  lemma EvidenceAsLines(files: seq<EvidenceFile>)
    ensures EvidenceLines(files) == LinesOf(EvidenceEmitted(files), SkipComments(TotalsOf(files).skipped))
    ensures Neat(EvidenceEmitted(files), 30, 35)
  {
    hide TotalsOf, EvidenceOf, SkipComment, LinesOf, Neat;
    if TotalsOf(files) == ZERO {
      NothingTidy();
      NoLines();
      assert SkipComments([]) == [];
    } else {
      NeatEvidence(TotalsOf(files));
    }
  }

  /** A scraper reads the evidence text as exactly its samples, in order, if and only if every comment on a
      skipped path is contained; no two of the samples share name and labels. */
  lemma EvidenceRoundTrip(files: seq<EvidenceFile>)
    ensures ReadsAs(Document(Texts(EvidenceLines(files))), Samples(EvidenceEmitted(files)))
       <==> AllContained(SkipComments(TotalsOf(files).skipped))
    ensures UniqueSeries(Samples(EvidenceEmitted(files)))
  {
    hide TotalsOf, EvidenceEmitted, SkipComments, InOrder, AllApart, Numeric, AllContained, LinesOf, Texts, Document;
    hide ReadsAs, WellBehaved, Printable, SamplesOf, Samples, Keyed, UniqueSeries, EvidenceLines;
    var ms, comments := EvidenceEmitted(files), SkipComments(TotalsOf(files).skipped);
    EvidenceAsLines(files);
    ApartUnique(ms);
    LinesWellBehaved(ms, comments);
    SamplesOfLines(ms, comments);
    DocumentRoundTrip(LinesOf(ms, comments));
  }

  lemma NothingTidy()
    ensures Neat([], 30, 35)
  {
  }

  lemma NoLines()
    ensures LinesOf([], []) == []
  {
  }

  // ---------------------------------------------------------------- what is reported

  predicate OneLabel(m: Metric, k: Key) {
    |m.labels| == 1 && m.labels[0].0 == k
  }

  predicate Counts(m: Metric, n: int) {
    m.value == Integral(IntCount(n))
  }

  const STATUS_CODES: seq<(string, int)> :=
    [("differences_expected", 1), ("matched_operational_context", 2),
     ("missing_artifacts", 3), ("incompatible_runs", 4)]

  lemma StatusCoded(s: string, m: Metric)
    ensures Counts(m, StatusValue(s)) <==> RunReport.IsCode(m, STATUS_CODES, s)
  {
    var t := STATUS_CODES;
    assert t[0] == ("differences_expected", 1) && t[1] == ("matched_operational_context", 2);
    assert t[2] == ("missing_artifacts", 3) && t[3] == ("incompatible_runs", 4);
    assert |"differences_expected"| == 20 && |"matched_operational_context"| == 27;
    assert |"missing_artifacts"| == 17 && |"incompatible_runs"| == 17;
    assert "missing_artifacts"[0] != "incompatible_runs"[0];
    if i :| 0 <= i < |t| && t[i].0 == s { RunReport.CodeAt(t, i, m, s); }
  }

  /** A line of the evidence part, said from the files: a status, artifact or class is reported if any file
      counts for it, with the sum of what the files count; the two totals are reported whatever they are. */
  predicate Reports(files: seq<EvidenceFile>, m: Metric) {
    match m.family
    case EvidenceStatusTotal =>
      OneLabel(m, ComparisonStatus) && Sum(files, StatusSeen(m.labels[0].1)) > 0
      && Counts(m, Sum(files, StatusSeen(m.labels[0].1)))
    case EvidenceStatus =>
      OneLabel(m, ComparisonStatus) && Sum(files, StatusSeen(m.labels[0].1)) > 0
      && RunReport.IsCode(m, STATUS_CODES, m.labels[0].1)
    case EvidenceArtifacts =>
      |m.labels| == 2 && m.labels[0].0 == Side && m.labels[1].0 == Artifact
      && Sum(files, ArtifactSeen(m.labels[0].1, m.labels[1].1)) > 0
      && Counts(m, Sum(files, ArtifactSeen(m.labels[0].1, m.labels[1].1)))
    case EvidenceKnownGaps => m.labels == [] && Counts(m, Sum(files, Gaps))
    case EvidenceSharedEvents => m.labels == [] && Counts(m, Sum(files, SharedEvents))
    case EvidenceComparedFields =>
      OneLabel(m, Classification) && Sum(files, ClassSeen(m.labels[0].1)) > 0
      && Counts(m, Sum(files, ClassSeen(m.labels[0].1)))
    case _ => false
  }

  /** A line of one stated status. */
  predicate StatusLine(counts: multiset<string>, m: Metric) {
    && (m.family == EvidenceStatusTotal || m.family == EvidenceStatus) && OneLabel(m, ComparisonStatus)
    && Counts(m, if m.family == EvidenceStatus then StatusValue(m.labels[0].1) else counts[m.labels[0].1])
  }

  lemma StatusPairLines(s: string, counts: multiset<string>, m: Metric)
    ensures m in StatusPair(s, counts[s]) <==> StatusLine(counts, m) && m.labels[0].1 == s
  {
    hide StatusValue;
    if OneLabel(m, ComparisonStatus) && m.labels[0].1 == s {
      assert m.labels == [(ComparisonStatus, s)] by { assert m.labels[0] == (m.labels[0].0, m.labels[0].1); }
    }
  }

  lemma {:induction false} StatusReported(names: seq<string>, counts: multiset<string>, m: Metric)
    ensures m in StatusMetrics(names, counts) <==> StatusLine(counts, m) && m.labels[0].1 in names
  {
    hide StatusLine, StatusPair;
    if names != [] {
      var n := |names| - 1;
      StatusReported(names[..n], counts, m);
      StatusPairLines(names[n], counts, m);
      assert names == names[..n] + [names[n]];
    }
  }

  lemma ArtifactReported(pairs: seq<(string, string)>, counts: multiset<(string, string)>, m: Metric)
    ensures m in ArtifactMetrics(pairs, counts) <==>
      m.family == EvidenceArtifacts && |m.labels| == 2 && m.labels[0].0 == Side && m.labels[1].0 == Artifact
      && (m.labels[0].1, m.labels[1].1) in pairs && Counts(m, counts[(m.labels[0].1, m.labels[1].1)])
  {
    var ms := ArtifactMetrics(pairs, counts);
    if m in ms {
      var p :| 0 <= p < |ms| && ms[p] == m;
      assert pairs[p] == (pairs[p].0, pairs[p].1) && pairs[p] in pairs;
    }
    if |m.labels| == 2 && m.labels[0].0 == Side && m.labels[1].0 == Artifact
       && (m.labels[0].1, m.labels[1].1) in pairs {
      var i :| 0 <= i < |pairs| && pairs[i] == (m.labels[0].1, m.labels[1].1);
      assert m.labels == [(Side, pairs[i].0), (Artifact, pairs[i].1)] by {
        assert m.labels[0] == (m.labels[0].0, m.labels[0].1) && m.labels[1] == (m.labels[1].0, m.labels[1].1);
      }
      assert ms[i] in ms;
    }
  }

  lemma ClassReported(names: seq<string>, counts: multiset<string>, m: Metric)
    ensures m in ClassMetrics(names, counts) <==>
      m.family == EvidenceComparedFields && OneLabel(m, Classification) && m.labels[0].1 in names
      && Counts(m, counts[m.labels[0].1])
  {
    var ms := ClassMetrics(names, counts);
    if m in ms {
      var p :| 0 <= p < |ms| && ms[p] == m;
      assert names[p] in names;
    }
    if OneLabel(m, Classification) && m.labels[0].1 in names {
      var i :| 0 <= i < |names| && names[i] == m.labels[0].1;
      assert m.labels == [(Classification, names[i])] by {
        assert m.labels[0] == (m.labels[0].0, m.labels[0].1);
      }
      assert ms[i] in ms;
    }
  }

  lemma CounterReported(family: Family, n: nat, m: Metric)
    ensures m in Counter(family, n) <==> m.family == family && m.labels == [] && Counts(m, n)
  {
  }

  /** What the totals say of a line. */
  predicate Told(t: Totals, m: Metric) {
    match m.family
    case EvidenceStatusTotal =>
      OneLabel(m, ComparisonStatus) && m.labels[0].1 in t.statuses && Counts(m, t.statuses[m.labels[0].1])
    case EvidenceStatus =>
      OneLabel(m, ComparisonStatus) && m.labels[0].1 in t.statuses && Counts(m, StatusValue(m.labels[0].1))
    case EvidenceArtifacts =>
      |m.labels| == 2 && m.labels[0].0 == Side && m.labels[1].0 == Artifact
      && (m.labels[0].1, m.labels[1].1) in t.presence && Counts(m, t.presence[(m.labels[0].1, m.labels[1].1)])
    case EvidenceKnownGaps => m.labels == [] && Counts(m, t.gaps)
    case EvidenceSharedEvents => m.labels == [] && Counts(m, t.shared)
    case EvidenceComparedFields =>
      OneLabel(m, Classification) && m.labels[0].1 in t.classes && Counts(m, t.classes[m.labels[0].1])
    case _ => false
  }

  lemma TotalsTold(t: Totals, m: Metric)
    ensures m in EvidenceOf(t) <==> Told(t, m)
  {
    hide StatusMetrics, ArtifactMetrics, ClassMetrics, Counter, StatusValue, Counts;
    hide Sorting.SortedStrings, Sorting.SortedPairs;
    var statuses, classes := Sorting.SortedStrings(Names(t.statuses)), Sorting.SortedStrings(Names(t.classes));
    var pairs := Sorting.SortedPairs(Pairs(t.presence));
    Sorting.SortedStringsShape(Names(t.statuses));
    Sorting.SortedStringsShape(Names(t.classes));
    Sorting.SortedPairsShape(Pairs(t.presence));
    StatusReported(statuses, t.statuses, m);
    ArtifactReported(pairs, t.presence, m);
    ClassReported(classes, t.classes, m);
    CounterReported(EvidenceKnownGaps, t.gaps, m);
    CounterReported(EvidenceSharedEvents, t.shared, m);
  }

  lemma ToldFromFiles(files: seq<EvidenceFile>, m: Metric)
    ensures Told(TotalsOf(files), m) <==> Reports(files, m)
  {
    hide TotalsOf, Sum, Counts, StatusValue, RunReport.IsCode;
    var t := TotalsOf(files);
    PointwiseSums(files, Gaps);
    PointwiseSums(files, SharedEvents);
    if |m.labels| > 0 {
      StatusCoded(m.labels[0].1, m);
      PointwiseSums(files, StatusSeen(m.labels[0].1));
      PointwiseSums(files, ClassSeen(m.labels[0].1));
    }
    if |m.labels| == 2 {
      PointwiseSums(files, ArtifactSeen(m.labels[0].1, m.labels[1].1));
    }
  }

  /** The evidence part reports exactly that if anything is found, and no line twice. */
  lemma ReportedExactly(files: seq<EvidenceFile>, m: Metric)
    ensures m in EvidenceEmitted(files) <==> SomethingFound(files) && Reports(files, m)
    ensures multiset(EvidenceEmitted(files))[m] <= 1
  {
    hide TotalsOf, EvidenceOf, Told, Reports, InOrder, Keyed, Numeric, SomethingFound;
    ZeroExactly(files);
    TotalsTold(TotalsOf(files), m);
    ToldFromFiles(files, m);
    NeatEvidence(TotalsOf(files));
    OnceOnly(EvidenceOf(TotalsOf(files)), m);
  }

  lemma {:induction false} OnceOnly(ms: seq<Metric>, m: Metric)
    requires AllApart(ms)
    ensures multiset(ms)[m] <= 1
  {
    if ms != [] {
      OnceOnly(ms[1..], m);
      assert ms == [ms[0]] + ms[1..];
      assert multiset(ms) == multiset{ms[0]} + multiset(ms[1..]);
      assert forall i :: 0 <= i < |ms[1..]| ==> ms[1..][i] != ms[0] by {
        forall i | 0 <= i < |ms[1..]| ensures ms[1..][i] != ms[0] {
          assert Apart(ms[0], ms[i + 1]);
        }
      }
    }
  }

  /** The positions of the malformed files, ascending. */
  predicate Malformed(files: seq<EvidenceFile>, at: seq<nat>) {
    && (forall i :: 0 <= i < |at| ==> at[i] < |files|)
    && (forall i, j :: 0 <= i < j < |at| ==> at[i] < at[j])
    && (forall n: nat :: n < |files| ==> (n in at <==> files[n].content.None?))
  }

  lemma MalformedSnoc(files: seq<EvidenceFile>, at: seq<nat>)
    requires files != [] && Malformed(files[..|files| - 1], at)
    ensures var n := |files| - 1; Malformed(files, if files[n].content.None? then at + [n] else at)
  {
    var n := |files| - 1;
    var next := if files[n].content.None? then at + [n] else at;
    forall k: nat | k < |files| ensures k in next <==> files[k].content.None? {
      if k < n {
        assert files[..n][k] == files[k];
      } else {
        Below(at, n);
      }
    }
  }

  lemma Below(at: seq<nat>, n: nat)
    requires forall i :: 0 <= i < |at| ==> at[i] < n
    ensures n !in at
  {
  }

  lemma {:induction false} SkippedInOrder(files: seq<EvidenceFile>) returns (at: seq<nat>)
    ensures Malformed(files, at) && |at| == |TotalsOf(files).skipped|
    ensures forall i :: 0 <= i < |at| ==> TotalsOf(files).skipped[i] == files[at[i]].path
  {
    hide Malformed;
    if files == [] {
      at := [];
      assert Malformed(files, at) by { NoneMalformed(); }
    } else {
      var n := |files| - 1;
      at := SkippedInOrder(files[..n]);
      Within(files[..n], at);
      MalformedSnoc(files, at);
      if files[n].content.None? {
        at := at + [n];
      }
      Within(files, at);
    }
  }

  lemma NoneMalformed()
    ensures Malformed([], [])
  {
  }

  lemma Within(files: seq<EvidenceFile>, at: seq<nat>)
    requires Malformed(files, at)
    ensures forall i :: 0 <= i < |at| ==> at[i] < |files|
  {
  }

  predicate Mentions(comment: string, path: string) {
    comment == "tradingchassis_ops_lab: skipped evidence artifact due to malformed JSON " + path
  }

  /** The comments of the evidence part: one for each malformed file, in the order in which they are found. */
  lemma CommentsExactly(files: seq<EvidenceFile>) returns (at: seq<nat>)
    requires forall f <- files :: f.path == "" || f.path[|f.path| - 1] != '\n'
    ensures Malformed(files, at)
    ensures var comments := SkipComments(TotalsOf(files).skipped);
      |comments| == |at| && forall i :: 0 <= i < |at| ==> Mentions(comments[i], files[at[i]].path)
  {
    hide SkipComment, TotalsOf, Malformed, Mentions;
    at := SkippedInOrder(files);
    Within(files, at);
    forall i | 0 <= i < |at| ensures Mentions(SkipComment(files[at[i]].path), files[at[i]].path) {
      assert files[at[i]] in files;
      CommentSaid(files[at[i]].path);
    }
  }

  lemma CommentSaid(path: string)
    requires path == "" || path[|path| - 1] != '\n'
    ensures Mentions(SkipComment(path), path)
  {
    var head := "tradingchassis_ops_lab: skipped evidence artifact due to malformed JSON ";
    assert head[|head| - 1] == ' ';
    assert path != "" ==> (head + path)[|head + path| - 1] == path[|path| - 1];
    assert path == "" ==> (head + path)[|head + path| - 1] == ' ';
  }

  // ---------------------------------------------------------------- one group a family

  /** The stripped statuses the well-formed files state do not differ. */
  predicate AtMostOneStatus(files: seq<EvidenceFile>) {
    forall i, j :: 0 <= i < j < |files| && States(files[i]) && States(files[j]) ==> Stated(files[i]) == Stated(files[j])
  }

  predicate States(f: EvidenceFile) {
    f.content.Some? && Usable(f.content.value.status)
  }

  function Stated(f: EvidenceFile): string
    requires States(f)
  {
    Text.Strip(f.content.value.status.value)
  }

  lemma StatusAdded(t: Totals, f: EvidenceFile, s: string)
    ensures s in AddFile(t, f).statuses <==> s in t.statuses || (States(f) && Stated(f) == s)
  {
    hide Text.NonBlank, Text.Strip, PresenceOf, Classes, Length;
  }

  lemma {:induction false} StatusCounted(files: seq<EvidenceFile>, s: string)
    ensures s in TotalsOf(files).statuses <==> exists i :: 0 <= i < |files| && States(files[i]) && Stated(files[i]) == s
  {
    hide States, Stated, AddFile;
    if files != [] {
      var n := |files| - 1;
      var front := files[..n];
      StatusCounted(front, s);
      StatusAdded(TotalsOf(front), files[n], s);
      assert forall i :: 0 <= i < n ==> files[i] == front[i];
      if i :| 0 <= i < n && States(front[i]) && Stated(front[i]) == s {
        assert States(files[i]) && Stated(files[i]) == s;
      }
    }
  }

  lemma StatedCounted(files: seq<EvidenceFile>, i: nat)
    requires i < |files| && States(files[i])
    ensures Stated(files[i]) in TotalsOf(files).statuses
  {
    hide TotalsOf, States, Stated;
    StatusCounted(files, Stated(files[i]));
  }

  lemma OneIsCounted(files: seq<EvidenceFile>, s: string, t: string)
    requires AtMostOneStatus(files) && s in TotalsOf(files).statuses && t in TotalsOf(files).statuses
    ensures s == t
  {
    StatusCounted(files, s);
    StatusCounted(files, t);
    hide TotalsOf, States, Stated;
    var i :| 0 <= i < |files| && States(files[i]) && Stated(files[i]) == s;
    var j :| 0 <= j < |files| && States(files[j]) && Stated(files[j]) == t;
    assert i < j || j < i || i == j;
  }

  lemma OneIsStated(files: seq<EvidenceFile>)
    requires forall s, t :: s in TotalsOf(files).statuses && t in TotalsOf(files).statuses ==> s == t
    ensures AtMostOneStatus(files)
  {
    hide TotalsOf, States, Stated;
    forall i, j | 0 <= i < j < |files| && States(files[i]) && States(files[j])
      ensures Stated(files[i]) == Stated(files[j])
    {
      StatedCounted(files, i);
      StatedCounted(files, j);
    }
  }

  lemma OneStatusCounted(files: seq<EvidenceFile>)
    ensures AtMostOneStatus(files) <==>
      forall s, t :: s in TotalsOf(files).statuses && t in TotalsOf(files).statuses ==> s == t
  {
    hide TotalsOf, AtMostOneStatus;
    var statuses := TotalsOf(files).statuses;
    if AtMostOneStatus(files) {
      forall s, t | s in statuses && t in statuses ensures s == t { OneIsCounted(files, s, t); }
    } else if forall s, t :: s in statuses && t in statuses ==> s == t {
      OneIsStated(files);
    }
  }

  /** Above the statuses a rank has one family. */
  lemma CounterRank(f: Family, g: Family)
    requires f.Rank() == g.Rank() && f.Rank() > 30
    ensures f == g
  {
    assert f in {EvidenceArtifacts, EvidenceKnownGaps, EvidenceSharedEvents, EvidenceComparedFields};
    assert g in {EvidenceArtifacts, EvidenceKnownGaps, EvidenceSharedEvents, EvidenceComparedFields};
  }

  lemma CountersInGroups(ms: seq<Metric>)
    requires InOrder(ms, 31, 35)
    ensures InGroups(ms)
  {
    hide Family.Rank;
    forall i, j, k | 0 <= i < j < k < |ms| && ms[i].family == ms[k].family ensures ms[j].family == ms[i].family {
      CounterRank(ms[j].family, ms[i].family);
    }
  }

  lemma StatusesInGroups(names: seq<string>, counts: multiset<string>)
    ensures InGroups(StatusMetrics(names, counts)) <==> |names| <= 1
  {
    hide StatusMetrics;
    StatusAt(names, counts);
    var ms := StatusMetrics(names, counts);
    if |names| > 1 {
      StatusPosition(names, counts, 0);
      StatusPosition(names, counts, 1);
      StatusPosition(names, counts, 2);
      assert ms[0].family == ms[2].family && ms[1].family != ms[0].family;
    }
  }

  lemma FewNames(s: set<string>)
    ensures |Sorting.SortedStrings(s)| <= 1 <==> forall x, y :: x in s && y in s ==> x == y
  {
    hide Sorting.SortedStrings;
    var names := Sorting.SortedStrings(s);
    Sorting.SortedStringsShape(s);
    if |names| > 1 {
      assert names[0] in s && names[1] in s;
    } else {
      assert forall x <- s :: x in names;
    }
  }

  /** "All lines for a given metric must be provided as one single group": the evidence part obeys this if
      and only if its files state at most one status, since each status writes both its families. */
  lemma EvidenceGrouped(files: seq<EvidenceFile>)
    ensures Grouped(Samples(EvidenceEmitted(files))) <==> AtMostOneStatus(files)
  {
    hide TotalsOf, EvidenceOf, Grouped, Samples, InGroups, AtMostOneStatus;
    var t := TotalsOf(files);
    OneStatusCounted(files);
    GroupedFamilies(EvidenceEmitted(files));
    if t == ZERO {
      assert InGroups([]) by { NothingGrouped(); }
    } else {
      TotalsInGroups(t);
    }
  }

  lemma NothingGrouped()
    ensures InGroups([])
  {
  }

  lemma TotalsInGroups(t: Totals)
    ensures InGroups(EvidenceOf(t)) <==> forall s, u :: s in t.statuses && u in t.statuses ==> s == u
  {
    hide StatusMetrics, ArtifactMetrics, ClassMetrics, Counter, InGroups, InOrder, AllApart, Numeric, Keyed;
    hide Sorting.SortedStrings, Sorting.SortedPairs, Pairs;
    var names := Sorting.SortedStrings(Names(t.statuses));
    Sorting.SortedStringsShape(Names(t.statuses));
    var head, rest := StatusMetrics(names, t.statuses), CountersOf(t);
    FewNames(Names(t.statuses));
    StatusesInGroups(names, t.statuses);
    NeatStatuses(names, t.statuses);
    NeatCounters(t);
    CountersInGroups(rest);
    RanksDiffer(head, rest, 30, 31, 35);
    GroupsConcat(head, rest);
    assert EvidenceOf(t) == head + rest by { Associative(); }
    assert forall s :: s in t.statuses <==> s in Names(t.statuses);
  }

  lemma RanksDiffer(a: seq<Metric>, b: seq<Metric>, lo: nat, mid: nat, hi: nat)
    requires InOrder(a, lo, mid) && InOrder(b, mid, hi)
    ensures forall i, j :: 0 <= i < |a| && 0 <= j < |b| ==> a[i].family != b[j].family
  {
    hide Family.Rank;
  }

  /** Two files with different statuses are enough to break the rule. */
  lemma TwoStatuses(backtest: string, paper: string)
    ensures var e := EvidenceMetrics.Evidence.Evidence(Some("unknown"), None, None, None, None, []);
      !Grouped(Samples(EvidenceEmitted([
        EvidenceFile(backtest, Some(e)),
        EvidenceFile(paper, Some(e.(status := Some("missing_artifacts"))))])))
  {
    hide EvidenceEmitted, Grouped, Samples, Text.Strip, Text.NonBlank;
    var e := EvidenceMetrics.Evidence.Evidence(Some("unknown"), None, None, None, None, []);
    var files := [EvidenceFile(backtest, Some(e)), EvidenceFile(paper, Some(e.(status := Some("missing_artifacts"))))];
    assert |"unknown"| != |"missing_artifacts"|;
    StripsToItself("unknown");
    StripsToItself("missing_artifacts");
    assert States(files[0]) && States(files[1]) && Stated(files[0]) != Stated(files[1]);
    EvidenceGrouped(files);
  }

  lemma StripsToItself(s: string)
    requires s != "" && !Text.IsSpace(s[0]) && !Text.IsSpace(s[|s| - 1])
    ensures Text.Strip(s) == s && Text.NonBlank(s)
  {
    Text.RStripShape(s);
    Text.LStripShape(s);
  }
}
