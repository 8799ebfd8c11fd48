/** Metrics as observability/metrics.py appends them to its list of lines: one family, ordered
    labels and a value each. What makes a list of them a document of the exposition format that
    parses back, has unique series and keeps each family in one group. */
module MetricSeries {
  import opened Decimals
  import opened MetricNames
  import opened PrometheusText
  import Text

  /** What passes `isinstance(value, int)`: Python's booleans are integers too. */
  datatype Whole = IntCount(n: int) | BoolCount(b: bool)

  /** A text the format reads as a number, and a single word. */
  predicate IsNumberText(s: string) {
    IsNumber(s) && IsToken(s)
  }

  function ZeroText(): (s: string)
    ensures IsNumberText(s)
  {
    assert AllDigits("0");
    SignedDigits("0", false);
    "0"
  }

  type NumberText = s: string | IsNumberText(s) witness ZeroText()

  /** Floats are carried as the text they are written as. */
  datatype Value = Integral(count: Whole) | Float(text: NumberText)
  datatype Metric = Metric(family: Family, labels: seq<(Key, string)>, value: Value)

  function IntText(n: int): string {
    if n < 0 then "-" + Digits(-n) else Digits(n)
  }

  /** `_format_metric_value`; `str(True)` is "True". */
  function ValueText(v: Value): string {
    match v
    case Integral(IntCount(n)) => IntText(n)
    case Integral(BoolCount(b)) => if b then "True" else "False"
    case Float(text) => text
  }

  predicate IsBool(v: Value) {
    v.Integral? && v.count.BoolCount?
  }

  function LabelsOf(labels: seq<(Key, string)>): seq<Label> {
    seq(|labels|, i requires 0 <= i < |labels| => Label(labels[i].0.Text(), labels[i].1))
  }

  function ToSample(m: Metric): Sample {
    Sample(m.family.Text(), LabelsOf(m.labels), ValueText(m.value))
  }

  function Samples(ms: seq<Metric>): seq<Sample> {
    seq(|ms|, i requires 0 <= i < |ms| => ToSample(ms[i]))
  }

  /** Sample lines first, comment lines after them. */
  function LinesOf(ms: seq<Metric>, comments: seq<string>): seq<Line> {
    seq(|ms|, i requires 0 <= i < |ms| => SampleLine(ToSample(ms[i])))
    + seq(|comments|, i requires 0 <= i < |comments| => CommentLine(comments[i]))
  }

  /** The growing `lines` list, with what has been written to it so far. */
  class LineBuffer {
    var lines: seq<string>
    ghost var emitted: seq<Metric>
    ghost var comments: seq<string>

    ghost predicate Valid()
      reads this
    {
      lines == Texts(LinesOf(emitted, comments))
    }

    constructor ()
      ensures Valid() && emitted == [] && comments == []
    {
      lines, emitted, comments := [], [], [];
    }

    method AppendMetric(family: Family, labels: seq<(Key, string)>, value: Value)
      requires Valid() && comments == []
      modifies this
      ensures Valid() && comments == []
      ensures emitted == old(emitted) + [Metric(family, labels, value)]
    {
      hide ToSample, MetricLine, Texts;
      var m := Metric(family, labels, value);
      lines := lines + [MetricLine(ToSample(m))];
      AppendedLine(LinesOf(emitted, []), SampleLine(ToSample(m)));
      emitted := emitted + [m];
      assert LinesOf(emitted, []) == LinesOf(old(emitted), []) + [SampleLine(ToSample(m))];
    }

    method AppendAll(ms: seq<Metric>)
      requires Valid() && comments == []
      modifies this
      ensures Valid() && comments == [] && emitted == old(emitted) + ms
    {
      hide Valid;
      for i := 0 to |ms|
        invariant Valid() && comments == [] && emitted == old(emitted) + ms[..i]
      {
        AppendMetric(ms[i].family, ms[i].labels, ms[i].value);
        assert ms[..i + 1] == ms[..i] + [ms[i]];
      }
      assert ms[..|ms|] == ms;
    }

    method AppendComment(comment: string)
      requires Valid()
      modifies this
      ensures Valid() && emitted == old(emitted) && comments == old(comments) + [comment]
    {
      hide Texts, ToSample;
      lines := lines + ["# " + comment];
      AppendedLine(LinesOf(emitted, comments), CommentLine(comment));
      comments := comments + [comment];
      assert LinesOf(emitted, comments) == LinesOf(emitted, old(comments)) + [CommentLine(comment)];
    }

    /** `"\n".join(lines) + "\n"`. */
    method Finish() returns (text: string)
      requires Valid() && emitted != []
      ensures text == Document(Texts(LinesOf(emitted, comments)))
    {
      TextsConcat(LinesOf(emitted, comments), []);
      text := Text.Join("\n", lines) + "\n";
      JoinedIsDocument(lines);
    }
  }

  lemma AppendedLine(lines: seq<Line>, line: Line)
    ensures Texts(lines + [line]) == Texts(lines) + [LineText(line)]
  {
    hide LineText;
    TextsConcat(lines, [line]);
    assert Texts([line]) == [LineText(line)];
  }

  lemma Associative()
    ensures forall a: seq<Metric>, b: seq<Metric>, c: seq<Metric> {:trigger a + b + c} :: a + b + c == a + (b + c)
  {
  }

  // ---------------------------------------------------------------- reading the document back

  lemma {:induction false} SpanAll(s: string, p: char -> bool)
    requires forall i :: 0 <= i < |s| ==> p(s[i])
    ensures Span(s, p) == |s|
  {
    SpanToken(s, "", p);
    assert s + "" == s;
  }

  lemma SignedDigits(digits: string, negative: bool)
    requires digits != "" && AllDigits(digits)
    ensures var s := if negative then "-" + digits else digits; IsNumber(s) && IsToken(s)
  {
    var s := if negative then "-" + digits else digits;
    assert IsDigit(digits[0]);
    assert negative ==> s[1..] == digits;
    assert AfterSign(s) == digits;
    SpanAll(digits, IsDigit);
    assert digits[|digits|..] == "";
  }

  lemma IntTextIsNumber(n: int)
    ensures IsNumber(IntText(n)) && IsToken(IntText(n))
  {
    hide IsNumber, IsToken, Digits;
    DigitsShape(if n < 0 then -n else n);
    SignedDigits(Digits(if n < 0 then -n else n), n < 0);
  }

  lemma BoolTextIsNoNumber(b: bool)
    ensures !IsNumber(ValueText(Integral(BoolCount(b)))) && IsToken(ValueText(Integral(BoolCount(b))))
  {
    var s := ValueText(Integral(BoolCount(b)));
    assert |s| >= 4 && AfterSign(s) == s && Span(s, IsDigit) == 0;
    assert s[0] == if b then 'T' else 'F';
  }

  /** Every value is written as a number of the format, except a boolean. */
  lemma ValueIsNumber(v: Value)
    ensures IsNumber(ValueText(v)) <==> !IsBool(v)
    ensures IsToken(ValueText(v))
  {
    match v {
      case Integral(IntCount(n)) => IntTextIsNumber(n);
      case Integral(BoolCount(b)) => BoolTextIsNoNumber(b);
      case Float(_) =>
    }
  }

  lemma MetricPrintable(m: Metric)
    ensures ValidNames(ToSample(m)) && IsToken(ToSample(m).value)
  {
    hide Family.Text, Key.Text, IsMetricName, IsLabelName, IsToken, IsNumber, ValueText;
    FamilyNamed(m.family);
    ValueIsNumber(m.value);
    forall i | 0 <= i < |m.labels| ensures IsLabelName(LabelsOf(m.labels)[i].name) { KeyNamed(m.labels[i].0); }
  }

  predicate Numeric(ms: seq<Metric>) {
    forall i :: 0 <= i < |ms| ==> !IsBool(ms[i].value)
  }

  predicate AllContained(comments: seq<string>) {
    forall i :: 0 <= i < |comments| ==> Contained(comments[i])
  }

  lemma {:induction false} CommentsOnly(comments: seq<string>)
    ensures SamplesOf(LinesOf([], comments)) == []
  {
    if comments != [] {
      assert LinesOf([], comments)[1..] == LinesOf([], comments[1..]);
      CommentsOnly(comments[1..]);
    }
  }

  lemma {:induction false} SamplesOfLines(ms: seq<Metric>, comments: seq<string>)
    ensures SamplesOf(LinesOf(ms, comments)) == Samples(ms)
  {
    hide ToSample;
    if ms == [] {
      CommentsOnly(comments);
    } else {
      assert LinesOf(ms, comments)[1..] == LinesOf(ms[1..], comments);
      SamplesOfLines(ms[1..], comments);
      assert Samples(ms) == [ToSample(ms[0])] + Samples(ms[1..]);
    }
  }

  lemma LinesWellBehaved(ms: seq<Metric>, comments: seq<string>)
    ensures Printable(LinesOf(ms, comments))
    ensures WellBehaved(LinesOf(ms, comments)) <==> Numeric(ms) && AllContained(comments)
  {
    hide ValidNames, IsToken, IsNumber, ValueText, Contained, IsBool;
    var lines := LinesOf(ms, comments);
    forall i | 0 <= i < |ms|
      ensures lines[i] == SampleLine(ToSample(ms[i]))
      ensures ValidNames(ToSample(ms[i])) && IsToken(ToSample(ms[i]).value)
      ensures IsNumber(ToSample(ms[i]).value) <==> !IsBool(ms[i].value)
    {
      MetricPrintable(ms[i]);
      ValueIsNumber(ms[i].value);
    }
    assert forall i :: 0 <= i < |comments| ==> lines[|ms| + i] == CommentLine(comments[i]);
    assert WellBehaved(lines) ==> AllContained(comments) by {
      forall i | WellBehaved(lines) && 0 <= i < |comments| ensures Contained(comments[i]) {
        assert lines[|ms| + i].CommentLine?;
      }
    }
  }

  // ---------------------------------------------------------------- unique series

  function LabelSet(s: Sample): set<Label> {
    set l <- s.labels
  }

  /** "Each line must have a unique combination of a metric name and labels." */
  predicate SameSeries(s: Sample, t: Sample) {
    s.name == t.name && LabelSet(s) == LabelSet(t)
  }

  predicate UniqueSeries(ss: seq<Sample>) {
    forall i, j :: 0 <= i < j < |ss| ==> !SameSeries(ss[i], ss[j])
  }

  /** No label name twice, and names in their fixed order. */
  predicate Ordered(labels: seq<(Key, string)>) {
    forall i, j :: 0 <= i < j < |labels| ==> labels[i].0.Order() < labels[j].0.Order()
  }

  predicate Keyed(ms: seq<Metric>) {
    forall i :: 0 <= i < |ms| ==> Ordered(ms[i].labels)
  }

  predicate Apart(m: Metric, n: Metric) {
    m.family != n.family || m.labels != n.labels
  }

  predicate AllApart(ms: seq<Metric>) {
    forall i, j :: 0 <= i < j < |ms| ==> Apart(ms[i], ms[j])
  }

  lemma SameHead(a: seq<(Key, string)>, b: seq<(Key, string)>)
    requires Ordered(a) && Ordered(b) && a != []
    requires (forall l <- a :: l in b) && (forall l <- b :: l in a)
    ensures b != [] && a[0] == b[0]
  {
    hide Key.Order;
    assert a[0] in b && b[0] in a;
    var i :| 0 <= i < |b| && b[i] == a[0];
    var j :| 0 <= j < |a| && a[j] == b[0];
    assert i == 0;
  }

  lemma TailsIncluded(a: seq<(Key, string)>, b: seq<(Key, string)>)
    requires Ordered(a) && a != [] && b != [] && a[0] == b[0] && forall l <- a :: l in b
    ensures forall l <- a[1..] :: l in b[1..]
  {
    hide Key.Order;
    forall l <- a[1..] ensures l in b[1..] {
      var p :| 0 <= p < |a[1..]| && a[1..][p] == l;
      assert a[p + 1] == l && l in a;
      var q :| 0 <= q < |b| && b[q] == l;
      assert q != 0;
      assert b[1..][q - 1] == l;
    }
  }

  lemma OrderedTail(a: seq<(Key, string)>)
    requires Ordered(a) && a != []
    ensures Ordered(a[1..])
  {
    hide Key.Order;
  }

  lemma {:induction false} SameSetSameList(a: seq<(Key, string)>, b: seq<(Key, string)>)
    requires Ordered(a) && Ordered(b)
    requires (forall l <- a :: l in b) && (forall l <- b :: l in a)
    ensures a == b
  {
    hide Ordered;
    assert b != [] ==> b[0] in b;
    if a != [] {
      SameHead(a, b);
      TailsIncluded(a, b);
      TailsIncluded(b, a);
      OrderedTail(a);
      OrderedTail(b);
      SameSetSameList(a[1..], b[1..]);
      assert a == [a[0]] + a[1..] && b == [b[0]] + b[1..];
    }
  }

  lemma LabelPresent(m: Metric, n: Metric, i: nat)
    requires i < |m.labels| && LabelSet(ToSample(m)) == LabelSet(ToSample(n))
    ensures m.labels[i] in n.labels
  {
    hide Key.Text, Family.Text, ValueText;
    var l := ToSample(m).labels[i];
    assert l in LabelSet(ToSample(m));
    assert l in ToSample(n).labels;
    var k :| 0 <= k < |n.labels| && ToSample(n).labels[k] == l;
    KeysApart(n.labels[k].0, m.labels[i].0);
    assert n.labels[k] == (n.labels[k].0, n.labels[k].1) && m.labels[i] == (m.labels[i].0, m.labels[i].1);
  }

  lemma LabelsPresent(m: Metric, n: Metric)
    requires LabelSet(ToSample(m)) == LabelSet(ToSample(n))
    ensures forall l <- m.labels :: l in n.labels
  {
    hide ToSample;
    forall l <- m.labels ensures l in n.labels {
      var i :| 0 <= i < |m.labels| && m.labels[i] == l;
      LabelPresent(m, n, i);
    }
  }

  /** Two metrics are one series if and only if they are of one family and carry the same labels. */
  lemma ApartSeries(m: Metric, n: Metric)
    requires Ordered(m.labels) && Ordered(n.labels)
    ensures SameSeries(ToSample(m), ToSample(n)) <==> !Apart(m, n)
  {
    hide Family.Text, Key.Text, ValueText, Ordered;
    if SameSeries(ToSample(m), ToSample(n)) {
      NamesApart(m.family, n.family);
      LabelsPresent(m, n);
      LabelsPresent(n, m);
      SameSetSameList(m.labels, n.labels);
    }
  }

  lemma ApartUnique(ms: seq<Metric>)
    requires Keyed(ms)
    ensures UniqueSeries(Samples(ms)) <==> AllApart(ms)
  {
    hide ToSample, Apart, SameSeries, Ordered;
    forall i, j | 0 <= i < j < |ms| ensures SameSeries(Samples(ms)[i], Samples(ms)[j]) <==> !Apart(ms[i], ms[j]) {
      ApartSeries(ms[i], ms[j]);
    }
  }

  // ---------------------------------------------------------------- order of emission

  /** Families in non-descending order, all between two ranks. */
  predicate InOrder(ms: seq<Metric>, lo: nat, hi: nat) {
    && (forall i :: 0 <= i < |ms| ==> lo <= ms[i].family.Rank() < hi)
    && (forall i, j :: 0 <= i < j < |ms| ==> ms[i].family.Rank() <= ms[j].family.Rank())
  }

  lemma InOrderConcat(a: seq<Metric>, b: seq<Metric>, lo: nat, mid: nat, hi: nat)
    requires InOrder(a, lo, mid) && InOrder(b, mid, hi) && lo <= mid <= hi
    ensures InOrder(a + b, lo, hi)
    ensures AllApart(a + b) <==> AllApart(a) && AllApart(b)
  {
    hide Family.Rank;
    var ms := a + b;
    assert forall i :: 0 <= i < |a| ==> ms[i] == a[i];
    assert forall i :: 0 <= i < |b| ==> ms[|a| + i] == b[i];
    assert AllApart(ms) ==> AllApart(b) by {
      forall i, j | AllApart(ms) && 0 <= i < j < |b| ensures Apart(b[i], b[j]) {
        assert Apart(ms[|a| + i], ms[|a| + j]);
      }
    }
  }

  /** Every line of a family in one uninterrupted group. */
  predicate Grouped(ss: seq<Sample>) {
    forall i, j, k :: 0 <= i < j < k < |ss| && ss[i].name == ss[k].name ==> ss[j].name == ss[i].name
  }

  predicate InGroups(ms: seq<Metric>) {
    forall i, j, k :: 0 <= i < j < k < |ms| && ms[i].family == ms[k].family ==> ms[j].family == ms[i].family
  }

  /** Groups of names are groups of families. */
  lemma GroupedFamilies(ms: seq<Metric>)
    ensures Grouped(Samples(ms)) <==> InGroups(ms)
  {
    hide Family.Text, ValueText, LabelsOf;
    var s := Samples(ms);
    forall i, k | 0 <= i < k < |ms| ensures s[i].name == s[k].name <==> ms[i].family == ms[k].family {
      if s[i].name == s[k].name {
        NamesApart(ms[i].family, ms[k].family);
      }
    }
    if Grouped(s) {
      forall i, j, k | 0 <= i < j < k < |ms| && ms[i].family == ms[k].family ensures ms[j].family == ms[i].family {
        assert s[i].name == s[k].name && s[j].name == s[i].name;
      }
    }
    if InGroups(ms) {
      forall i, j, k | 0 <= i < j < k < |s| && s[i].name == s[k].name ensures s[j].name == s[i].name {
        assert ms[i].family == ms[k].family;
      }
    }
  }

  lemma GroupsConcat(a: seq<Metric>, b: seq<Metric>)
    requires forall i, j :: 0 <= i < |a| && 0 <= j < |b| ==> a[i].family != b[j].family
    ensures InGroups(a + b) <==> InGroups(a) && InGroups(b)
  {
    var ms := a + b;
    assert forall i :: 0 <= i < |a| ==> ms[i] == a[i];
    assert forall i :: 0 <= i < |b| ==> b[i] == ms[|a| + i];
    if InGroups(ms) {
      forall i, j, k | 0 <= i < j < k < |b| && b[i].family == b[k].family ensures b[j].family == b[i].family {
        assert ms[|a| + i].family == ms[|a| + k].family;
      }
    }
  }
}
