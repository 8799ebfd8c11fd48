/** The Prometheus text exposition format 0.0.4 ("Line format"): the printer of
    observability/metrics.py and a parser for the format, proved to undo it. */
module PrometheusText {
  import opened Decimals
  import Text

  datatype Label = Label(name: string, value: string)
  datatype Sample = Sample(name: string, labels: seq<Label>, value: string)
  datatype Line = SampleLine(sample: Sample) | CommentLine(text: string)

  // ---------------------------------------------------------------- printer

  /** `_escape_label_value`: three passes over the whole string. */
  function EscapeLabelValue(value: string): string {
    Text.Replace(Text.Replace(Text.Replace(value, '\\', "\\\\"), '\n', "\\n"), '"', "\\\"")
  }

  function FormatLabel(l: Label): string {
    l.name + "=\"" + EscapeLabelValue(l.value) + "\""
  }

  function FormatEach(labels: seq<Label>): seq<string> {
    if labels == [] then [] else [FormatLabel(labels[0])] + FormatEach(labels[1..])
  }

  /** `_format_labels`. */
  function FormatLabels(labels: seq<Label>): string {
    Text.Join(",", FormatEach(labels))
  }

  /** The line `_append_metric` appends. */
  function MetricLine(s: Sample): string {
    s.name + "{" + FormatLabels(s.labels) + "} " + s.value
  }

  function LineText(l: Line): string {
    match l
    case SampleLine(s) => MetricLine(s)
    case CommentLine(t) => "# " + t
  }

  /** Lines with their line feeds. */
  function Document(lines: seq<string>): string {
    if lines == [] then "" else lines[0] + "\n" + Document(lines[1..])
  }

  function Texts(lines: seq<Line>): seq<string> {
    if lines == [] then [] else [LineText(lines[0])] + Texts(lines[1..])
  }

  function SamplesOf(lines: seq<Line>): seq<Sample> {
    if lines == [] then []
    else (if lines[0].SampleLine? then [lines[0].sample] else []) + SamplesOf(lines[1..])
  }

  // ---------------------------------------------------------------- parser

  predicate IsBlank(c: char) {
    c == ' ' || c == '\t'
  }

  predicate IsLetter(c: char) {
    'a' <= c <= 'z' || 'A' <= c <= 'Z' || c == '_'
  }

  /** `[a-zA-Z_:][a-zA-Z0-9_:]*` and, for labels, the same without the colon. */
  predicate IsNameChar(c: char) {
    IsLetter(c) || IsDigit(c) || c == ':'
  }

  predicate IsLabelChar(c: char) {
    IsLetter(c) || IsDigit(c)
  }

  predicate IsMetricName(s: string) {
    s != "" && !IsDigit(s[0]) && forall i :: 0 <= i < |s| ==> IsNameChar(s[i])
  }

  predicate IsLabelName(s: string) {
    s != "" && !IsDigit(s[0]) && forall i :: 0 <= i < |s| ==> IsLabelChar(s[i])
  }

  /** Length of the longest prefix whose characters satisfy `p`. */
  function Span(s: string, p: char -> bool): (n: nat)
    ensures n <= |s|
  {
    if s != "" && p(s[0]) then 1 + Span(s[1..], p) else 0
  }

  function SkipBlanks(s: string): string {
    s[Span(s, IsBlank)..]
  }

  predicate IsWord(c: char) {
    !IsBlank(c)
  }

  function AfterSign(s: string): string {
    if s != "" && (s[0] == '-' || s[0] == '+') then s[1..] else s
  }

  predicate IsExponent(s: string) {
    s == "" || ((s[0] == 'e' || s[0] == 'E') && AfterSign(s[1..]) != "" && AllDigits(AfterSign(s[1..])))
  }

  /** A float as the format reads it: decimal notation with an optional exponent, or a special value. */
  predicate IsNumber(s: string) {
    || s in {"NaN", "nan", "+Inf", "inf", "-Inf", "-inf"}
    || (var t := AfterSign(s);
        var n := Span(t, IsDigit);
        if n < |t| && t[n] == '.' then
          var m := Span(t[n + 1..], IsDigit);
          n + m > 0 && IsExponent(t[n + 1 + m..])
        else n > 0 && IsExponent(t[n..]))
  }

  predicate IsTimestamp(s: string) {
    AfterSign(s) != "" && AllDigits(AfterSign(s))
  }

  /** The rest of a label value after its opening quote, and what follows the closing one. */
  function Unquote(s: string): Option<(string, string)> {
    if s == "" then None
    else if s[0] == '"' then Some(("", s[1..]))
    else if s[0] == '\\' then
      if |s| < 2 || (s[1] != '\\' && s[1] != 'n' && s[1] != '"') then None
      else
        match Unquote(s[2..])
        case None => None
        case Some((v, rest)) => Some(([if s[1] == 'n' then '\n' else s[1]] + v, rest))
    else
      match Unquote(s[1..])
      case None => None
      case Some((v, rest)) => Some(([s[0]] + v, rest))
  }

  lemma {:induction false} UnquoteShrinks(s: string)
    ensures Unquote(s).Some? ==> |Unquote(s).value.1| < |s|
    decreases |s|
  {
    if s != "" {
      UnquoteShrinks(s[1..]);
      if |s| > 1 {
        UnquoteShrinks(s[2..]);
      }
    }
  }

  /** An equals sign and a quoted value. */
  function ParseQuoted(s: string): Option<(string, string)> {
    var t := SkipBlanks(s);
    if t == "" || t[0] != '=' then None
    else
      var u := SkipBlanks(t[1..]);
      if u == "" || u[0] != '"' then None else Unquote(u[1..])
  }

  function ParseLabel(s: string): Option<(Label, string)> {
    var n := Span(s, IsLabelChar);
    if !IsLabelName(s[..n]) then None
    else
      match ParseQuoted(s[n..])
      case None => None
      case Some((value, rest)) => Some((Label(s[..n], value), SkipBlanks(rest)))
  }

  lemma ParseLabelShrinks(s: string)
    ensures ParseLabel(s).Some? ==> |ParseLabel(s).value.1| < |s|
  {
    var t := SkipBlanks(s[Span(s, IsLabelChar)..]);
    if t != "" {
      var u := SkipBlanks(t[1..]);
      if u != "" {
        UnquoteShrinks(u[1..]);
      }
    }
  }

  /** Labels after the opening brace; a comma may follow the last one. */
  function ParseLabels(s: string): Option<(seq<Label>, string)>
    decreases |s|
  {
    if s != "" && s[0] == '}' then Some(([], s[1..]))
    else
      ParseLabelShrinks(s);
      match ParseLabel(s)
      case None => None
      case Some((label_, rest)) =>
        if rest != "" && rest[0] == '}' then Some(([label_], rest[1..]))
        else if rest == "" || rest[0] != ',' then None
        else
          match ParseLabels(SkipBlanks(rest[1..]))
          case None => None
          case Some((labels, after)) => Some(([label_] + labels, after))
  }

  /** What a HELP or a TYPE line tells about a metric name. */
  datatype Declaration = HelpOf(name: string, doc: string) | TypeOf(name: string, type_: string)

  /** What a scraper takes from a document, line by line. */
  datatype Entry = SampleEntry(sample: Sample) | DeclarationEntry(declaration: Declaration)

  datatype LineResult = Ignored | Read(entry: Entry) | Malformed

  /** Value and optional timestamp, separated by blanks. */
  function ParseValue(name: string, labels: seq<Label>, s: string): LineResult {
    var t := SkipBlanks(s);
    var n := Span(t, IsWord);
    var u := SkipBlanks(t[n..]);
    var m := Span(u, IsWord);
    if !IsNumber(t[..n]) || (u != "" && (!IsTimestamp(u[..m]) || SkipBlanks(u[m..]) != "")) then Malformed
    else Read(SampleEntry(Sample(name, labels, t[..n])))
  }

  /** An optional label block, then the value. */
  function ParseAfterName(name: string, s: string): LineResult {
    var t := SkipBlanks(s);
    if t != "" && t[0] == '{' then
      match ParseLabels(SkipBlanks(t[1..]))
      case None => Malformed
      case Some((labels, rest)) => ParseValue(name, labels, rest)
    else ParseValue(name, [], t)
  }

  /** In the text of a HELP line a backslash must begin an escaped backslash or line feed. */
  function UnescapeHelp(s: string): Option<string> {
    if s == "" then Some("")
    else if s[0] == '\\' then
      if |s| < 2 || (s[1] != '\\' && s[1] != 'n') then None
      else
        match UnescapeHelp(s[2..])
        case None => None
        case Some(rest) => Some([if s[1] == 'n' then '\n' else s[1]] + rest)
    else
      match UnescapeHelp(s[1..])
      case None => None
      case Some(rest) => Some([s[0]] + rest)
  }

  function FirstWord(s: string): string {
    SkipBlanks(s)[..Span(SkipBlanks(s), IsWord)]
  }

  function AfterFirstWord(s: string): string {
    SkipBlanks(SkipBlanks(s)[Span(SkipBlanks(s), IsWord)..])
  }

  /** What follows a `#`: ignored unless the first token is HELP or TYPE. HELP wants a metric name and any
      text, TYPE a metric name and one of five types. */
  function ParseComment(s: string): LineResult {
    var rest := AfterFirstWord(s);
    var name, more := FirstWord(rest), AfterFirstWord(rest);
    if FirstWord(s) != "HELP" && FirstWord(s) != "TYPE" then Ignored
    else if !IsMetricName(name) then Malformed
    else if FirstWord(s) == "HELP" then
      match UnescapeHelp(more)
      case None => Malformed
      case Some(doc) => Read(DeclarationEntry(HelpOf(name, doc)))
    else if FirstWord(more) !in {"counter", "gauge", "histogram", "summary", "untyped"} then Malformed
    else if AfterFirstWord(more) != "" then Malformed
    else Read(DeclarationEntry(TypeOf(name, FirstWord(more))))
  }

  /** One line: empty, a comment or declaration, or a sample. */
  function ParseLine(line: string): LineResult {
    var s := SkipBlanks(line);
    if s == "" then Ignored
    else if s[0] == '#' then ParseComment(s[1..])
    else
      var n := Span(s, IsNameChar);
      if !IsMetricName(s[..n]) then Malformed else ParseAfterName(s[..n], s[n..])
  }

  predicate NotLineFeed(c: char) {
    c != '\n'
  }

  function Prepend(r: LineResult, rest: Option<seq<Entry>>): Option<seq<Entry>> {
    if r.Malformed? || rest.None? then None
    else Some((if r.Read? then [r.entry] else []) + rest.value)
  }

  /** All lines of a document; the last one must be terminated too. */
  function ParseLines(doc: string): Option<seq<Entry>> {
    if doc == "" then Some([])
    else
      var n := Span(doc, NotLineFeed);
      if n == |doc| then None else Prepend(ParseLine(doc[..n]), ParseLines(doc[n + 1..]))
  }

  /** At most one HELP and one TYPE line a name, and TYPE before the first sample of that name. */
  predicate Compatible(earlier: Entry, later: Entry) {
    match later
    case SampleEntry(_) => true
    case DeclarationEntry(HelpOf(name, _)) =>
      !(earlier.DeclarationEntry? && earlier.declaration.HelpOf? && earlier.declaration.name == name)
    case DeclarationEntry(TypeOf(name, _)) =>
      if earlier.SampleEntry? then earlier.sample.name != name
      else !(earlier.declaration.TypeOf? && earlier.declaration.name == name)
  }

  predicate WellDeclared(entries: seq<Entry>) {
    forall i, j :: 0 <= i < j < |entries| ==> Compatible(entries[i], entries[j])
  }

  /** A document as a scraper reads it; `None` if the format rejects it. */
  function ParseDocument(doc: string): Option<seq<Entry>> {
    var entries := ParseLines(doc);
    if entries.Some? && WellDeclared(entries.value) then entries else None
  }

  function Entries(samples: seq<Sample>): seq<Entry> {
    seq(|samples|, i requires 0 <= i < |samples| => SampleEntry(samples[i]))
  }

  /** A scraper reads exactly these samples, in order, and no declaration nobody made. */
  predicate ReadsAs(doc: string, samples: seq<Sample>) {
    ParseDocument(doc) == Some(Entries(samples))
  }

  // ---------------------------------------------------------------- escaping

  /** The escape as a map over characters. */
  function EscapeChar(c: char): string {
    if c == '\\' then "\\\\" else if c == '\n' then "\\n" else if c == '"' then "\\\"" else [c]
  }

  function MapEscape(s: string): string {
    if s == "" then "" else EscapeChar(s[0]) + MapEscape(s[1..])
  }

  lemma {:induction false} ReplaceConcat(a: string, b: string, c: char, into: string)
    ensures Text.Replace(a + b, c, into) == Text.Replace(a, c, into) + Text.Replace(b, c, into)
  {
    if a == "" {
      assert a + b == b;
    } else {
      assert (a + b)[1..] == a[1..] + b;
      ReplaceConcat(a[1..], b, c, into);
    }
  }

  lemma {:induction false} ReplaceAbsent(s: string, c: char, into: string)
    requires c !in s
    ensures Text.Replace(s, c, into) == s
  {
    if s != "" {
      ReplaceAbsent(s[1..], c, into);
      assert s == [s[0]] + s[1..];
    }
  }

  lemma ReplaceOne(c: char, into: string)
    ensures Text.Replace([c], c, into) == into
  {
    assert [c][1..] == "" && into + "" == into;
  }

  lemma EscapeOneChar(c: char)
    ensures EscapeLabelValue([c]) == EscapeChar(c)
  {
    if c == '\\' {
      ReplaceOne(c, "\\\\");
      ReplaceAbsent("\\\\", '\n', "\\n");
      ReplaceAbsent("\\\\", '"', "\\\"");
    } else {
      ReplaceAbsent([c], '\\', "\\\\");
      if c == '\n' {
        ReplaceOne(c, "\\n");
        ReplaceAbsent("\\n", '"', "\\\"");
      } else {
        ReplaceAbsent([c], '\n', "\\n");
        if c == '"' { ReplaceOne(c, "\\\""); } else { ReplaceAbsent([c], '"', "\\\""); }
      }
    }
  }

  /** The three passes do not disturb one another: together they are one left-to-right map. */
  lemma {:induction false} ThreePassesAreOneMap(s: string)
    ensures EscapeLabelValue(s) == MapEscape(s)
  {
    if s != "" {
      var c, rest := [s[0]], s[1..];
      assert s == c + rest;
      ThreePassesAreOneMap(rest);
      EscapeOneChar(s[0]);
      ReplaceConcat(c, rest, '\\', "\\\\");
      var c1, r1 := Text.Replace(c, '\\', "\\\\"), Text.Replace(rest, '\\', "\\\\");
      ReplaceConcat(c1, r1, '\n', "\\n");
      ReplaceConcat(Text.Replace(c1, '\n', "\\n"), Text.Replace(r1, '\n', "\\n"), '"', "\\\"");
    }
  }

  lemma {:induction false} MapEscapeConcat(a: string, b: string)
    ensures MapEscape(a + b) == MapEscape(a) + MapEscape(b)
  {
    if a == "" {
      assert a + b == b;
    } else {
      assert (a + b)[1..] == a[1..] + b;
      MapEscapeConcat(a[1..], b);
    }
  }

  /** Number of backslashes that stand directly before position `i`. */
  function BackslashRun(s: string, i: nat): nat
    requires i <= |s|
  {
    if i > 0 && s[i - 1] == '\\' then 1 + BackslashRun(s, i - 1) else 0
  }

  lemma {:induction false} RunInPrefix(a: string, b: string, i: nat)
    requires i <= |a|
    ensures BackslashRun(a + b, i) == BackslashRun(a, i)
  {
    if i > 0 {
      RunInPrefix(a, b, i - 1);
    }
  }

  /** No raw line feed, every quote escaped, and no escape left open at the end. */
  predicate WellEscaped(s: string) {
    && (forall i :: 0 <= i < |s| ==> s[i] != '\n')
    && (forall i :: 0 <= i < |s| && s[i] == '"' ==> BackslashRun(s, i) % 2 == 1)
    && BackslashRun(s, |s|) % 2 == 0
  }

  lemma WellEscapedSnoc(s: string, c: char)
    requires WellEscaped(s)
    ensures WellEscaped(s + EscapeChar(c))
  {
    var e := EscapeChar(c);
    var t := s + e;
    forall i | 0 <= i <= |s| ensures BackslashRun(t, i) == BackslashRun(s, i) { RunInPrefix(s, e, i); }
    assert BackslashRun(t, |s| + 1) == if e[0] == '\\' then 1 + BackslashRun(s, |s|) else 0;
    assert |e| == 2 ==> BackslashRun(t, |s| + 2) == if e[1] == '\\' then 1 + BackslashRun(t, |s| + 1) else 0;
  }

  lemma {:induction false} EscapedIsWellEscaped(s: string)
    ensures WellEscaped(EscapeLabelValue(s))
  {
    ThreePassesAreOneMap(s);
    if s != "" {
      var init, last := s[..|s| - 1], s[|s| - 1];
      assert s == init + [last];
      EscapedIsWellEscaped(init);
      ThreePassesAreOneMap(init);
      MapEscapeConcat(init, [last]);
      WellEscapedSnoc(EscapeLabelValue(init), last);
      assert MapEscape([last]) == EscapeChar(last) + MapEscape([last][1..]) == EscapeChar(last);
    }
  }

  lemma UnquoteChar(c: char, tail: string)
    ensures Unquote(EscapeChar(c) + tail) ==
      match Unquote(tail) case None => None case Some((v, rest)) => Some(([c] + v, rest))
  {
    var text := EscapeChar(c) + tail;
    assert text[|EscapeChar(c)|..] == tail;
  }

  /** Reading an escaped value up to its closing quote gives the value back. */
  lemma {:induction false} UnquoteMapped(s: string, rest: string)
    ensures Unquote(MapEscape(s) + "\"" + rest) == Some((s, rest))
  {
    hide EscapeChar;
    if s == "" {
      assert "" + "\"" + rest == "\"" + rest && ("\"" + rest)[1..] == rest;
    } else {
      var tail := MapEscape(s[1..]) + "\"" + rest;
      assert MapEscape(s) + "\"" + rest == EscapeChar(s[0]) + tail;
      hide Unquote;
      UnquoteMapped(s[1..], rest);
      UnquoteChar(s[0], tail);
      assert s == [s[0]] + s[1..];
    }
  }

  lemma UnquoteEscaped(s: string, rest: string)
    ensures Unquote(EscapeLabelValue(s) + "\"" + rest) == Some((s, rest))
  {
    ThreePassesAreOneMap(s);
    UnquoteMapped(s, rest);
  }

  /** Hence escaping is injective. */
  lemma EscapeInjective(a: string, b: string)
    requires EscapeLabelValue(a) == EscapeLabelValue(b)
    ensures a == b
  {
    UnquoteEscaped(a, "");
    UnquoteEscaped(b, "");
  }

  // ---------------------------------------------------------------- one line

  lemma {:induction false} SpanToken(token: string, rest: string, p: char -> bool)
    requires forall i :: 0 <= i < |token| ==> p(token[i])
    requires rest == "" || !p(rest[0])
    ensures Span(token + rest, p) == |token|
    ensures (token + rest)[..|token|] == token && (token + rest)[|token|..] == rest
  {
    if token == "" {
      assert token + rest == rest;
    } else {
      assert (token + rest)[1..] == token[1..] + rest;
      SpanToken(token[1..], rest, p);
    }
  }

  lemma NoBlanks(s: string)
    requires s == "" || !IsBlank(s[0])
    ensures SkipBlanks(s) == s
  {
  }

  predicate ValidLabels(labels: seq<Label>) {
    forall i :: 0 <= i < |labels| ==> IsLabelName(labels[i].name)
  }

  lemma FormatHead(labels: seq<Label>)
    requires labels != []
    ensures FormatLabels(labels)
         == FormatLabel(labels[0]) + (if |labels| == 1 then "" else "," + FormatLabels(labels[1..]))
  {
    var each := FormatEach(labels);
    assert each[1..] == FormatEach(labels[1..]) && each[0] == FormatLabel(labels[0]);
    if |labels| > 1 {
      assert FormatEach(labels[1..]) != [];
    }
  }

  lemma FourParts(a: string, b: string, c: string, d: string)
    ensures a + b + c + d == a + (b + c + d)
  {
  }

  lemma ParseOneQuoted(value: string, after: string)
    ensures ParseQuoted("=\"" + EscapeLabelValue(value) + "\"" + after) == Some((value, after))
  {
    hide EscapeLabelValue, Unquote, ParseQuoted;
    UnquoteEscaped(value, after);
    AfterEquals(EscapeLabelValue(value) + "\"" + after);
    FourParts("=\"", EscapeLabelValue(value), "\"", after);
  }

  lemma AfterEquals(quoted: string)
    ensures ParseQuoted("=\"" + quoted) == Unquote(quoted)
  {
    hide Unquote;
    var s := "=\"" + quoted;
    assert s[1..] == "\"" + quoted && s[1..][1..] == quoted;
    NoBlanks(s);
    NoBlanks(s[1..]);
  }

  lemma ParseOneLabel(l: Label, after: string)
    requires IsLabelName(l.name) && after != "" && !IsBlank(after[0])
    ensures ParseLabel(FormatLabel(l) + after) == Some((l, after))
  {
    hide EscapeLabelValue, ParseQuoted;
    var tail := "=\"" + EscapeLabelValue(l.value) + "\"" + after;
    assert FormatLabel(l) + after == l.name + tail;
    SpanToken(l.name, tail, IsLabelChar);
    ParseOneQuoted(l.value, after);
    NoBlanks(after);
  }

  lemma LastLabel(text: string, l: Label, rest: string)
    requires text != "" && text[0] != '}' && ParseLabel(text) == Some((l, "}" + rest))
    ensures ParseLabels(text) == Some(([l], rest))
  {
    hide ParseLabel;
    assert ("}" + rest)[1..] == rest;
  }

  lemma NextLabel(text: string, l: Label, next: string, labels: seq<Label>, rest: string)
    requires text != "" && text[0] != '}' && ParseLabel(text) == Some((l, "," + next))
    requires SkipBlanks(next) == next && ParseLabels(next) == Some((labels, rest))
    ensures ParseLabels(text) == Some(([l] + labels, rest))
  {
    hide ParseLabel, SkipBlanks;
    assert ("," + next)[1..] == next;
  }

  /** Labels with the closing brace, as the printer writes them. */
  lemma {:induction false} ParseFormatted(labels: seq<Label>, rest: string)
    requires ValidLabels(labels)
    ensures ParseLabels(FormatLabels(labels) + "}" + rest) == Some((labels, rest))
  {
    hide FormatLabel, ParseLabel, FormatLabels, ParseLabels, SkipBlanks, ValidLabels, IsLabelName;
    if labels == [] {
      ParseNoLabels(rest);
    } else {
      var l, more := labels[0], labels[1..];
      var text := FormatLabels(labels) + "}" + rest;
      ValidHead(labels);
      FormatHead(labels);
      StartsWithName(l);
      if more == [] {
        assert text == FormatLabel(l) + ("}" + rest);
        ParseOneLabel(l, "}" + rest);
        LastLabel(text, l, rest);
        assert [l] == labels;
      } else {
        var next := FormatLabels(more) + "}" + rest;
        assert text == FormatLabel(l) + ("," + next);
        ParseOneLabel(l, "," + next);
        LabelsStart(more, "}" + rest);
        assert next == FormatLabels(more) + ("}" + rest);
        NoBlanks(next);
        ParseFormatted(more, rest);
        NextLabel(text, l, next, more, rest);
        assert [l] + more == labels;
      }
    }
  }

  lemma ValidHead(labels: seq<Label>)
    requires ValidLabels(labels) && labels != []
    ensures IsLabelName(labels[0].name) && ValidLabels(labels[1..])
  {
    hide IsLabelName;
  }

  lemma ParseNoLabels(rest: string)
    ensures ParseLabels(FormatLabels([]) + "}" + rest) == Some(([], rest))
  {
    NoLabels();
    assert "" + "}" + rest == "}" + rest && ("}" + rest)[1..] == rest;
  }

  lemma NoLabels()
    ensures FormatLabels([]) == ""
  {
  }

  lemma StartsWithName(l: Label)
    requires IsLabelName(l.name)
    ensures FormatLabel(l) != "" && !IsBlank(FormatLabel(l)[0]) && FormatLabel(l)[0] != '}'
  {
    assert FormatLabel(l)[0] == l.name[0] && IsLabelChar(l.name[0]);
  }

  /** What a sample must satisfy to be printed as a line of the format. */
  predicate ValidNames(s: Sample) {
    IsMetricName(s.name) && ValidLabels(s.labels)
  }

  predicate IsToken(v: string) {
    v != "" && forall i :: 0 <= i < |v| ==> !IsBlank(v[i]) && v[i] != '\n'
  }

  lemma ParseBareValue(name: string, labels: seq<Label>, value: string)
    requires IsToken(value)
    ensures ParseValue(name, labels, " " + value)
         == if IsNumber(value) then Read(SampleEntry(Sample(name, labels, value))) else Malformed
  {
    hide IsNumber;
    assert (" " + value)[1..] == value;
    NoBlanks(value);
    assert Span(" " + value, IsBlank) == 1 + Span(value, IsBlank);
    SpanToken(value, "", IsWord);
    assert value + "" == value;
    NoBlanks("");
  }

  lemma ParseBlock(s: Sample)
    requires ValidLabels(s.labels) && IsToken(s.value)
    ensures ParseAfterName(s.name, "{" + FormatLabels(s.labels) + "} " + s.value)
         == if IsNumber(s.value) then Read(SampleEntry(s)) else Malformed
  {
    hide FormatLabels, ParseLabels, ParseValue, IsNumber;
    var block := FormatLabels(s.labels) + "}" + (" " + s.value);
    var text := "{" + FormatLabels(s.labels) + "} " + s.value;
    assert text == "{" + block && text[1..] == block;
    NoBlanks(text);
    LabelsStart(s.labels, "}" + (" " + s.value));
    assert block == FormatLabels(s.labels) + ("}" + (" " + s.value));
    NoBlanks(block);
    ParseFormatted(s.labels, " " + s.value);
    ParseBareValue(s.name, s.labels, s.value);
  }

  lemma ParseNamed(name: string, tail: string)
    requires IsMetricName(name) && tail != "" && !IsNameChar(tail[0])
    ensures ParseLine(name + tail) == ParseAfterName(name, tail)
  {
    hide ParseAfterName;
    var line := name + tail;
    assert IsNameChar(name[0]) && line[0] == name[0];
    NoBlanks(line);
    SpanToken(name, tail, IsNameChar);
  }

  /** The parser reads a printed sample back, if its value is a number; otherwise the line is no sample. */
  lemma ParseMetricLine(s: Sample)
    requires ValidNames(s) && IsToken(s.value)
    ensures ParseLine(MetricLine(s)) == if IsNumber(s.value) then Read(SampleEntry(s)) else Malformed
  {
    hide FormatLabels, ParseAfterName, IsNumber, ParseLine, IsMetricName;
    var tail := "{" + FormatLabels(s.labels) + "} " + s.value;
    assert MetricLine(s) == s.name + tail;
    ParseNamed(s.name, tail);
    ParseBlock(s);
  }

  lemma LabelsStart(labels: seq<Label>, rest: string)
    requires ValidLabels(labels) && rest != "" && !IsBlank(rest[0])
    ensures FormatLabels(labels) + rest != "" && !IsBlank((FormatLabels(labels) + rest)[0])
  {
    if labels != [] {
      FormatHead(labels);
      StartsWithName(labels[0]);
    }
  }

  // ---------------------------------------------------------------- whole documents

  predicate OneLine(s: string) {
    forall i :: 0 <= i < |s| ==> s[i] != '\n'
  }

  lemma {:induction false} LabelsOneLine(labels: seq<Label>)
    requires ValidLabels(labels)
    ensures OneLine(FormatLabels(labels))
  {
    hide FormatLabels, EscapeLabelValue;
    if labels == [] {
      NoLabels();
    } else {
      var l := labels[0];
      FormatHead(labels);
      EscapedIsWellEscaped(l.value);
      assert IsLabelName(l.name);
      assert OneLine(l.name) && OneLine(FormatLabel(l));
      if |labels| > 1 {
        LabelsOneLine(labels[1..]);
      }
    }
  }

  /** No sample spills over its line, whatever its label values hold. */
  lemma MetricOneLine(s: Sample)
    requires ValidNames(s) && IsToken(s.value)
    ensures OneLine(MetricLine(s))
  {
    hide FormatLabels;
    LabelsOneLine(s.labels);
    assert OneLine(s.name);
  }

  function Append(a: Option<seq<Entry>>, b: Option<seq<Entry>>): Option<seq<Entry>> {
    if a.None? || b.None? then None else Some(a.value + b.value)
  }

  lemma PrependAppend(r: LineResult, a: Option<seq<Entry>>, b: Option<seq<Entry>>)
    ensures Prepend(r, Append(a, b)) == Append(Prepend(r, a), b)
    ensures Append(Some([]), b) == b && (r.Read? ==> Prepend(r, Some([])) == Some([r.entry]))
  {
    if b.Some? {
      assert [] + b.value == b.value;
      if a.Some? {
        var x := if r.Read? then [r.entry] else [];
        assert x + (a.value + b.value) == x + a.value + b.value;
      }
    }
    assert r.Read? ==> [r.entry] + [] == [r.entry];
  }

  lemma FirstLine(line: string, rest: string)
    requires OneLine(line)
    ensures ParseLines(line + "\n" + rest) == Prepend(ParseLine(line), ParseLines(rest))
  {
    hide ParseLine;
    var doc := line + "\n" + rest;
    assert doc == line + ("\n" + rest);
    SpanToken(line, "\n" + rest, NotLineFeed);
    assert doc[|line| + 1..] == rest;
  }

  lemma LineAndTail(line: string, tail: string, rest: string)
    ensures line + "\n" + tail + "\n" + rest == line + "\n" + (tail + "\n" + rest)
    ensures line + "\n" + tail + "\n" == line + "\n" + (tail + "\n")
  {
  }

  lemma {:induction false} SplitLines(s: string, rest: string)
    ensures ParseLines(s + "\n" + rest) == Append(ParseLines(s + "\n"), ParseLines(rest))
    decreases |s|
  {
    hide ParseLine, ParseLines;
    var n := Span(s, NotLineFeed);
    SpanStops(s, NotLineFeed);
    var line := s[..n];
    if n == |s| {
      assert line == s;
      FirstLine(s, rest);
      FirstLine(s, "");
      assert s + "\n" + "" == s + "\n";
      EmptyDocument();
      PrependAppend(ParseLine(s), Some([]), ParseLines(rest));
    } else {
      var tail := s[n + 1..];
      PrependAppend(ParseLine(line), ParseLines(tail + "\n"), ParseLines(rest));
      assert s == line + "\n" + tail;
      LineAndTail(line, tail, rest);
      FirstLine(line, tail + "\n" + rest);
      FirstLine(line, tail + "\n");
      SplitLines(tail, rest);
    }
  }

  lemma EmptyDocument()
    ensures ParseLines("") == Some([])
  {
  }

  lemma {:induction false} SpanStops(s: string, p: char -> bool)
    ensures var n := Span(s, p); (forall i :: 0 <= i < n ==> p(s[i])) && (n < |s| ==> !p(s[n]))
  {
    if s != "" && p(s[0]) {
      SpanStops(s[1..], p);
    }
  }

  /** The first token makes a comment a declaration. */
  predicate Declares(comment: string) {
    FirstWord(comment) == "HELP" || FirstWord(comment) == "TYPE"
  }

  predicate Ignorable(line: string) {
    var s := SkipBlanks(line);
    s == "" || (s[0] == '#' && !Declares(s[1..]))
  }

  /** Every line of a text is empty or a comment that declares nothing. */
  predicate Hidden(s: string)
    decreases |s|
  {
    var n := Span(s, NotLineFeed);
    Ignorable(s[..n]) && (n == |s| || Hidden(s[n + 1..]))
  }

  /** A comment text neither declares anything nor leaves its comment: what follows a line feed in it is
      itself empty or a comment that declares nothing. */
  predicate Contained(comment: string) {
    var n := Span(comment, NotLineFeed);
    !Declares(comment[..n]) && (n == |comment| || Hidden(comment[n + 1..]))
  }

  lemma {:induction false} HiddenParses(s: string)
    ensures ParseLines(s + "\n") == Some([]) <==> Hidden(s)
    ensures !Hidden(s) && ParseLines(s + "\n").Some? ==> |ParseLines(s + "\n").value| > 0
    decreases |s|
  {
    hide ParseLines, ParseLine, Ignorable;
    var n := Span(s, NotLineFeed);
    SpanStops(s, NotLineFeed);
    var line := s[..n];
    IgnoredLine(line);
    if n == |s| {
      assert line == s && s + "\n" + "" == s + "\n";
      FirstLine(s, "");
      EmptyDocument();
    } else {
      var tail := s[n + 1..];
      assert s == line + "\n" + tail;
      LineAndTail(line, tail, "");
      FirstLine(line, tail + "\n");
      HiddenParses(tail);
    }
  }

  lemma IgnoredLine(line: string)
    ensures ParseLine(line).Ignored? <==> Ignorable(line)
  {
  }

  lemma FirstWordIs(word: string, rest: string)
    requires word != "" && forall i :: 0 <= i < |word| ==> IsWord(word[i])
    ensures FirstWord(word + " " + rest) == word
  {
    hide Span, SkipBlanks;
    var s := word + " " + rest;
    assert IsWord(word[0]) && s[0] == word[0];
    NoBlanks(s);
    assert s == word + (" " + rest);
    SpanToken(word, " " + rest, IsWord);
  }

  lemma BlankFirst(s: string)
    ensures FirstWord(" " + s) == FirstWord(s)
  {
    assert (" " + s)[1..] == s;
    assert Span(" " + s, IsBlank) == 1 + Span(s, IsBlank);
    assert SkipBlanks(" " + s) == SkipBlanks(s);
  }

  lemma CommentIgnorable(comment: string)
    ensures Ignorable("# " + comment) <==> !Declares(comment)
  {
    var line := "# " + comment;
    NoBlanks(line);
    assert line[1..] == " " + comment;
    BlankFirst(comment);
    hide FirstWord;
  }

  /** A comment line is read as nothing at all if and only if its text is contained. */
  lemma CommentHidden(comment: string)
    ensures Hidden("# " + comment) <==> Contained(comment)
  {
    hide Declares, Ignorable;
    var s := "# " + comment;
    var n := Span(comment, NotLineFeed);
    SpanStops(comment, NotLineFeed);
    var first := "# " + comment[..n];
    assert s == first + comment[n..];
    assert forall i :: 0 <= i < |first| ==> NotLineFeed(first[i]);
    SpanToken(first, comment[n..], NotLineFeed);
    CommentIgnorable(comment[..n]);
    if n < |comment| {
      assert s[|first| + 1..] == comment[n + 1..];
    }
  }

  /** A comment text split at its first line feed. */
  lemma ContainedSplit(a: string, b: string)
    requires OneLine(a)
    ensures Contained(a + "\n" + b) <==> !Declares(a) && Hidden(b)
    ensures Contained(a) <==> !Declares(a)
  {
    hide Declares, Ignorable;
    var comment := a + "\n" + b;
    assert comment == a + ("\n" + b);
    SpanToken(a, "\n" + b, NotLineFeed);
    assert comment[|a| + 1..] == b;
    SpanToken(a, "", NotLineFeed);
    assert a + "" == a && a[..|a|] == a;
  }

  predicate Printable(lines: seq<Line>) {
    forall i :: 0 <= i < |lines| && lines[i].SampleLine? ==>
      ValidNames(lines[i].sample) && IsToken(lines[i].sample.value)
  }

  /** The caller's side of the format: numeric values, and comments that stay comments. */
  predicate WellBehaved(lines: seq<Line>) {
    && (forall i :: 0 <= i < |lines| && lines[i].SampleLine? ==> IsNumber(lines[i].sample.value))
    && (forall i :: 0 <= i < |lines| && lines[i].CommentLine? ==> Contained(lines[i].text))
  }

  predicate LineBehaves(l: Line) {
    if l.SampleLine? then IsNumber(l.sample.value) else Contained(l.text)
  }

  function EntriesOf(l: Line): seq<Entry> {
    if l.SampleLine? then [SampleEntry(l.sample)] else []
  }

  lemma LineParses(l: Line)
    requires l.SampleLine? ==> ValidNames(l.sample) && IsToken(l.sample.value)
    ensures var r := ParseLines(LineText(l) + "\n");
      if LineBehaves(l) then r == Some(EntriesOf(l)) else r.None? || |r.value| > |EntriesOf(l)|
  {
    hide ParseLines, IsNumber, Contained, ParseLine;
    match l {
      case SampleLine(s) =>
        MetricOneLine(s);
        ParseMetricLine(s);
        FirstLine(MetricLine(s), "");
        EmptyDocument();
        PrependAppend(ParseLine(MetricLine(s)), Some([]), Some([]));
        assert MetricLine(s) + "\n" + "" == MetricLine(s) + "\n";
      case CommentLine(t) =>
        CommentHidden(t);
        HiddenParses("# " + t);
    }
  }

  lemma {:induction false} LinesParse(lines: seq<Line>)
    requires Printable(lines)
    ensures var r := ParseLines(Document(Texts(lines)));
      && (WellBehaved(lines) ==> r == Some(Entries(SamplesOf(lines))))
      && (!WellBehaved(lines) && r.Some? ==> |r.value| > |SamplesOf(lines)|)
  {
    hide ParseLines, LineText, ValidNames, IsToken, IsNumber, Contained;
    if lines == [] {
      EmptyDocument();
    } else {
      var l, more := lines[0], lines[1..];
      LinesParse(more);
      LineParses(l);
      SplitLines(LineText(l), Document(Texts(more)));
      assert Texts(lines) == [LineText(l)] + Texts(more);
      assert Entries(SamplesOf(lines)) == EntriesOf(l) + Entries(SamplesOf(more));
      assert WellBehaved(lines) <==> LineBehaves(l) && WellBehaved(more) by {
        assert forall i :: 0 < i < |lines| ==> lines[i] == more[i - 1];
      }
    }
  }

  /** Main theorem: a scraper reads a printed document as exactly the emitted samples, in order, and nothing
      else, if and only if every value is a number and every comment text is contained. */
  lemma DocumentRoundTrip(lines: seq<Line>)
    requires Printable(lines)
    ensures ReadsAs(Document(Texts(lines)), SamplesOf(lines)) <==> WellBehaved(lines)
  {
    hide ParseLines, Printable, WellBehaved, Texts, Document, SamplesOf;
    LinesParse(lines);
  }

  lemma {:induction false} DocumentConcat(a: seq<string>, b: seq<string>)
    ensures Document(a + b) == Document(a) + Document(b)
  {
    if a == [] {
      assert a + b == b;
    } else {
      assert (a + b)[1..] == a[1..] + b;
      DocumentConcat(a[1..], b);
    }
  }

  lemma SampleAssociative(a: seq<Sample>, b: seq<Sample>, c: seq<Sample>)
    ensures a + b + c == a + (b + c)
  {
  }

  lemma {:induction false} SamplesOfConcat(a: seq<Line>, b: seq<Line>)
    ensures SamplesOf(a + b) == SamplesOf(a) + SamplesOf(b)
  {
    if a == [] {
      assert a + b == b;
    } else {
      assert (a + b)[1..] == a[1..] + b;
      SamplesOfConcat(a[1..], b);
      var first := if a[0].SampleLine? then [a[0].sample] else [];
      SampleAssociative(first, SamplesOf(a[1..]), SamplesOf(b));
      assert SamplesOf(a + b) == first + SamplesOf(a[1..] + b);
    }
  }

  lemma {:induction false} TextsConcat(a: seq<Line>, b: seq<Line>)
    ensures Texts(a + b) == Texts(a) + Texts(b) && |Texts(a)| == |a|
  {
    hide LineText;
    if a == [] {
      assert a + b == b;
    } else {
      assert (a + b)[1..] == a[1..] + b;
      TextsConcat(a[1..], b);
    }
  }

  /** `"\n".join(lines) + "\n"`. */
  lemma {:induction false} JoinedIsDocument(lines: seq<string>)
    requires lines != []
    ensures Text.Join("\n", lines) + "\n" == Document(lines)
  {
    if |lines| == 1 {
      assert Document(lines[1..]) == "";
    } else {
      JoinedIsDocument(lines[1..]);
    }
  }
}
