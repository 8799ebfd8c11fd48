/** The two writers of `report.md` (connectivity/readiness.py and connectivity/probe.py).
    Each owns one section, delimited by its own pair of HTML comment markers, and splices a
    fresh copy of it into a text file the other one edits too. */
module ReportSplice {
  import opened Text

  datatype Kind = Readiness | Probe

  /** What a patch renders, every value already turned into text. */
  datatype Payload =
    | ReadinessPayload(state: string, enabled: string, missingRequiredCount: string)
    | ProbePayload(state: string, networkScope: string, probePerformed: string,
                   httpStatus: string, latencyMs: string, responseBodyStored: string)
  {
    function Kind(): Kind {
      if ReadinessPayload? then Readiness else Probe
    }
  }

  datatype Marker = Start(kind: Kind) | End(kind: Kind) {
    function Text(): string {
      "<" + Stem(kind) + (if Start? then ":start" else ":end") + " -->"
    }
  }

  function Stem(k: Kind): string {
    if k.Readiness? then "!-- connectivity_readiness" else "!-- connectivity_probe"
  }

  /** `path.read_text`: universal newlines turn "\r\n" and "\r" into "\n". */
  function ReadText(raw: string): string {
    if raw == "" then ""
    else if raw[0] == '\r' then "\n" + ReadText(if |raw| > 1 && raw[1] == '\n' then raw[2..] else raw[1..])
    else [raw[0]] + ReadText(raw[1..])
  }

  /** Text before a break is kept, and each kind of break is read as one line feed. */
  lemma {:induction false} BreaksRead(front: string, rest: string)
    requires '\r' !in front
    ensures ReadText(front) == front
    ensures ReadText(front + "\r\n" + rest) == front + "\n" + ReadText(rest)
    ensures (rest == "" || rest[0] != '\n') ==> ReadText(front + "\r" + rest) == front + "\n" + ReadText(rest)
  {
    var crlf, cr := front + "\r\n" + rest, front + "\r" + rest;
    if front == "" {
      assert crlf[2..] == rest && cr[1..] == rest && crlf[1] == '\n';
      assert |cr| > 1 ==> cr[1] == rest[0];
    } else {
      BreaksRead(front[1..], rest);
      assert crlf[1..] == front[1..] + "\r\n" + rest && cr[1..] == front[1..] + "\r" + rest;
      assert [front[0]] + front[1..] == front;
    }
  }

  /** The fixed lines of the two sections. */
  datatype Title = ReadinessTitle | ProbeTitle | NoNetworkCalls {
    function Text(): string {
      match this
      case ReadinessTitle => "## Connectivity readiness"
      case ProbeTitle => "## Connectivity probe"
      case NoNetworkCalls => "- No network calls were performed."
    }
  }

  /** The names of the values they show. */
  datatype Key =
    | State | Enabled | MissingRequiredCount | ProbePerformed
    | NetworkScope | HttpStatus | LatencyMs | ResponseBodyStored | ExternalConnectivity
  {
    function Text(): string {
      match this
      case State => "state"
      case Enabled => "enabled"
      case MissingRequiredCount => "missing_required_count"
      case ProbePerformed => "probe_performed"
      case NetworkScope => "network_scope"
      case HttpStatus => "http_status"
      case LatencyMs => "latency_ms"
      case ResponseBodyStored => "response_body_stored"
      case ExternalConnectivity => "external connectivity"
    }
  }

  /** One line of a section: fixed, empty, or a bullet that shows a value. */
  datatype Line = Plain(title: Title) | Empty | Item(key: Key, value: string) {
    function Text(): string {
      match this
      case Plain(w) => w.Text()
      case Empty => ""
      case Item(k, v) => "- " + k.Text() + ": " + v
    }
  }

  function Lines(p: Payload): seq<Line> {
    match p
    case ReadinessPayload(state, enabled, missing) => [
      Plain(ReadinessTitle), Empty,
      Item(State, state), Item(Enabled, enabled), Item(MissingRequiredCount, missing),
      Item(ProbePerformed, "False"), Plain(NoNetworkCalls)]
    case ProbePayload(state, scope, performed, status, latency, stored) => [
      Plain(ProbeTitle), Empty,
      Item(State, state), Item(NetworkScope, scope), Item(ProbePerformed, performed),
      Item(HttpStatus, status), Item(LatencyMs, latency), Item(ResponseBodyStored, stored),
      Item(ExternalConnectivity, "not used")]
  }

  function Layout(lines: seq<Line>): string {
    if |lines| == 0 then ""
    else if |lines| == 1 then lines[0].Text()
    else lines[0].Text() + "\n" + Layout(lines[1..])
  }

  function Body(p: Payload): string {
    Layout(Lines(p))
  }

  function Wrap(s: string, body: string, e: string): string {
    s + "\n" + body + "\n" + e
  }

  function Section(p: Payload): string {
    Wrap(Start(p.Kind()).Text(), Body(p), End(p.Kind()).Text())
  }

  /** The splice both writers perform on the text they have read. */
  function Splice(existing: string, start: string, end: string, section: string): string {
    if Contains(existing, start) && Contains(existing, end) then
      RStrip(existing[..IndexOf(existing, start)]) + "\n\n" + section + "\n"
      + LStrip(existing[IndexOf(existing, end) + |end|..])
    else
      RStrip(existing) + "\n\n" + section + "\n"
  }

  function PatchText(existing: string, p: Payload): string {
    Splice(existing, Start(p.Kind()).Text(), End(p.Kind()).Text(), Section(p))
  }

  // ---------------------------------------------------------------- the file and its writers

  datatype ReportFile = Missing | NotAFile | Content(raw: string)
  datatype Outcome = Updated | Skipped | ArtifactsError

  function Patched(f: ReportFile, p: Payload): ReportFile {
    if f.Content? then Content(PatchText(ReadText(f.raw), p)) else f
  }

  function PatchAll(f: ReportFile, patches: seq<Payload>): ReportFile {
    if patches == [] then f else Patched(PatchAll(f, patches[..|patches| - 1]), patches[|patches| - 1])
  }

  class Report {
    var file: ReportFile

    constructor (initial: ReportFile)
      ensures file == initial
    {
      file := initial;
    }

    method PatchReadiness(state: string, enabled: string, missing: string) returns (outcome: Outcome)
      modifies this
      ensures file == Patched(old(file), ReadinessPayload(state, enabled, missing))
      ensures outcome.Updated? <==> old(file).Content?
      ensures outcome.Skipped? <==> old(file).Missing?
      ensures !outcome.Updated? ==> file == old(file)
    {
      if file.Missing? {
        return Skipped;
      }
      if file.NotAFile? {
        return ArtifactsError;
      }
      hide Section, Marker.Text, ReadText, RStrip, LStrip, Contains, IndexOf;
      var existing := ReadText(file.raw);
      var reportStart, reportEnd := Start(Readiness).Text(), End(Readiness).Text();
      ghost var payload := ReadinessPayload(state, enabled, missing);
      var section := Section(ReadinessPayload(state, enabled, missing));
      assert PatchText(existing, payload) == Splice(existing, reportStart, reportEnd, section);
      var updated: string;
      if Contains(existing, reportStart) && Contains(existing, reportEnd) {
        var start := IndexOf(existing, reportStart);
        var end := IndexOf(existing, reportEnd) + |reportEnd|;
        updated := RStrip(existing[..start]) + "\n\n" + section + "\n" + LStrip(existing[end..]);
      } else {
        updated := RStrip(existing) + "\n\n" + section + "\n";
      }
      file := Content(updated);
      outcome := Updated;
    }

    method PatchProbe(state: string, scope: string, performed: string, status: string, latency: string,
                      stored: string)
      returns (outcome: Outcome)
      modifies this
      ensures file == Patched(old(file), ProbePayload(state, scope, performed, status, latency, stored))
      ensures outcome.Updated? <==> old(file).Content?
      ensures outcome.Skipped? <==> old(file).Missing?
      ensures !outcome.Updated? ==> file == old(file)
    {
      if file.Missing? {
        return Skipped;
      }
      if file.NotAFile? {
        return ArtifactsError;
      }
      hide Section, Marker.Text, ReadText, RStrip, LStrip, Contains, IndexOf;
      var existing := ReadText(file.raw);
      var reportStart, reportEnd := Start(Probe).Text(), End(Probe).Text();
      ghost var payload := ProbePayload(state, scope, performed, status, latency, stored);
      var section := Section(ProbePayload(state, scope, performed, status, latency, stored));
      assert PatchText(existing, payload) == Splice(existing, reportStart, reportEnd, section);
      var updated: string;
      if Contains(existing, reportStart) && Contains(existing, reportEnd) {
        var start := IndexOf(existing, reportStart);
        var end := IndexOf(existing, reportEnd) + |reportEnd|;
        updated := RStrip(existing[..start]) + "\n\n" + section + "\n" + LStrip(existing[end..]);
      } else {
        updated := RStrip(existing) + "\n\n" + section + "\n";
      }
      file := Content(updated);
      outcome := Updated;
    }
  }

  // ---------------------------------------------------------------- markers never straddle a seam

  ghost predicate MarkerFree(s: string) {
    forall m: Marker :: !Contains(s, m.Text())
  }

  /** A payload the theorems speak of: none of its texts holds a marker or a carriage return. */
  ghost predicate Clean(p: Payload) {
    forall l <- Lines(p) :: l.Item? ==> MarkerFree(l.value) && '\r' !in l.value
  }

  lemma MarkerShape(m: Marker)
    ensures var t := m.Text();
      |t| > 27 && t[0] == '<' && t[|t| - 1] == '>' && '\n' !in t && '\r' !in t && '<' !in t[1..]
  {
    var tail := Stem(m.kind) + (if m.Start? then ":start" else ":end") + " -->";
    StemShape(m.kind);
    assert forall i :: 0 <= i < |tail| ==> tail[i] != '\n' && tail[i] != '\r' && tail[i] != '<';
    assert m.Text() == "<" + tail && m.Text()[1..] == tail;
  }

  lemma StemShape(k: Kind)
    ensures |Stem(k)| > 20
    ensures forall i :: 0 <= i < |Stem(k)| ==> Stem(k)[i] != '\n' && Stem(k)[i] != '\r' && Stem(k)[i] != '<'
  {
  }

  lemma MarkerLetters(m: Marker)
    ensures |Stem(m.kind)| == if m.kind.Readiness? then 26 else 22
    ensures |m.Text()| > 28 && m.Text()[18] == if m.kind.Readiness? then 'r' else 'p'
    ensures m.Text()[|Stem(m.kind)| + 2] == if m.Start? then 's' else 'e'
  {
    assert Stem(m.kind)[17] == if m.kind.Readiness? then 'r' else 'p';
    assert m.Text()[18] == Stem(m.kind)[17];
  }

  lemma MarkersApart(m: Marker, n: Marker)
    ensures Contains(m.Text(), n.Text()) <==> m == n
  {
    hide Stem, Marker.Text;
    var s, t := m.Text(), n.Text();
    MarkerShape(m);
    MarkerShape(n);
    MarkerLetters(m);
    MarkerLetters(n);
    assert OccursAt(s, s, 0);
    forall i | 0 <= i <= |s| && OccursAt(s, t, i) ensures i == 0 && t == s[..|t|] {
      OnlyAtFront(s, t, i);
    }
  }

  lemma OnlyAtFront(s: string, t: string, i: int)
    requires t != "" && s != "" && '<' !in s[1..] && t[0] == '<' && OccursAt(s, t, i)
    ensures i == 0 && t == s[..|t|]
  {
    assert s[i..i + |t|][0] == '<';
    assert i == 0;
  }

  lemma CharOf(s: string, t: string, i: nat, n: nat)
    requires OccursAt(s, t, i) && i <= n < i + |t|
    ensures s[n] in t
  {
    assert s[n] == t[n - i];
  }

  lemma SliceBehind(a: string, b: string, i: nat, j: nat)
    requires |a| <= i <= j <= |a| + |b|
    ensures (a + b)[i..j] == b[i - |a|..j - |a|]
  {
  }

  /** Text without line breaks lies on one side of a line break or on the other. */
  lemma SplitAtNewline(a: string, b: string, t: string)
    requires t != "" && '\n' !in t
    ensures Contains(a + "\n" + b, t) <==> Contains(a, t) || Contains(b, t)
  {
    var s := a + "\n" + b;
    forall i | 0 <= i <= |s| && OccursAt(s, t, i)
      ensures OccursAt(a, t, i) || (i > |a| && OccursAt(b, t, i - |a| - 1))
    {
      if i + |t| <= |a| {
        assert s[i..i + |t|] == a[i..i + |t|];
      } else if i <= |a| {
        CharOf(s, t, i, |a|);
      } else {
        SliceBehind(a + "\n", b, i, i + |t|);
      }
    }
    forall i | 0 <= i <= |a| && OccursAt(a, t, i) ensures OccursAt(s, t, i) {
      assert s[i..i + |t|] == a[i..i + |t|];
    }
    forall i | 0 <= i <= |b| && OccursAt(b, t, i) ensures OccursAt(s, t, i + |a| + 1) {
      assert s[i + |a| + 1..i + |a| + 1 + |t|] == b[i..i + |t|];
    }
  }

  /** After complete lines that do not hold it, a marker is first found where it was put. */
  lemma FirstAfterLines(a: string, t: string, b: string)
    requires t != "" && '\n' !in t && !Contains(a, t)
    requires a != "" ==> a[|a| - 1] == '\n'
    ensures Contains(a + t + b, t) && IndexOf(a + t + b, t) == |a|
  {
    var s := a + t + b;
    assert OccursAt(s, t, |a|);
    forall i | 0 <= i < |a| && OccursAt(s, t, i) ensures OccursAt(a, t, i) {
      assert s[|a| - 1] == '\n';
      assert forall k :: i <= k < i + |t| ==> s[k] == s[i..i + |t|][k - i] && s[k] != '\n';
      if i + |t| <= |a| {
        assert s[i..i + |t|] == a[i..i + |t|];
      } else {
        assert false;
      }
    }
  }

  lemma SkipQuiet(a: string, b: string, t: string)
    requires t != "" && t[0] == '<' && '<' !in a && !Contains(b, t)
    ensures !Contains(a + b, t)
  {
    var s := a + b;
    forall i | 0 <= i <= |s| && OccursAt(s, t, i) ensures OccursAt(b, t, i - |a|) {
      assert s[i..i + |t|][0] == s[i] == '<';
      assert s[i..i + |t|] == b[i - |a|..i - |a| + |t|];
    }
  }

  predicate Quiet(s: string) {
    forall i :: 0 <= i < |s| ==> s[i] != '<' && s[i] != '\r'
  }

  lemma TitleQuiet(t: Title)
    ensures Quiet(t.Text())
  {
    match t {
      case ReadinessTitle => assert Quiet("## Connectivity readiness");
      case ProbeTitle => assert Quiet("## Connectivity probe");
      case NoNetworkCalls => assert Quiet("- No network calls were performed.");
    }
  }

  lemma KeyQuiet(k: Key)
    ensures Quiet(k.Text())
  {
    match k {
      case State => assert Quiet("state");
      case Enabled => assert Quiet("enabled");
      case MissingRequiredCount => assert Quiet("missing_required_count");
      case ProbePerformed => assert Quiet("probe_performed");
      case NetworkScope => assert Quiet("network_scope");
      case HttpStatus => assert Quiet("http_status");
      case LatencyMs => assert Quiet("latency_ms");
      case ResponseBodyStored => assert Quiet("response_body_stored");
      case ExternalConnectivity => assert Quiet("external connectivity");
    }
  }

  lemma LineFree(l: Line, t: string)
    requires t != "" && t[0] == '<'
    requires l.Item? ==> !Contains(l.value, t)
    ensures !Contains(l.Text(), t)
  {
    hide Title.Text, Key.Text;
    match l {
      case Plain(w) =>
        TitleQuiet(w);
        SkipQuiet(w.Text(), "", t);
        assert w.Text() + "" == w.Text();
      case Empty =>
      case Item(k, v) =>
        KeyQuiet(k);
        SkipQuiet("- " + k.Text() + ": ", v, t);
    }
  }

  lemma {:induction false} LayoutFree(lines: seq<Line>, t: string)
    requires t != "" && t[0] == '<' && '\n' !in t
    requires forall l <- lines :: l.Item? ==> !Contains(l.value, t)
    ensures !Contains(Layout(lines), t)
  {
    hide Line.Text;
    if |lines| > 0 {
      LineFree(lines[0], t);
      if |lines| > 1 {
        LayoutFree(lines[1..], t);
        SplitAtNewline(lines[0].Text(), Layout(lines[1..]), t);
      }
    }
  }

  lemma BodyFree(p: Payload, m: Marker)
    requires Clean(p)
    ensures !Contains(Body(p), m.Text())
  {
    hide Stem, Lines;
    MarkerShape(m);
    forall l <- Lines(p) ensures l.Item? ==> !Contains(l.value, m.Text()) {
      assert l.Item? ==> MarkerFree(l.value);
    }
    LayoutFree(Lines(p), m.Text());
  }

  lemma LinesContain(s: string, body: string, e: string, t: string)
    requires t != "" && '\n' !in t
    ensures Contains(s + "\n" + body + "\n" + e, t) <==> Contains(s, t) || Contains(body, t) || Contains(e, t)
  {
    SplitAtNewline(body, e, t);
    SplitAtNewline(s, body + "\n" + e, t);
    assert s + "\n" + body + "\n" + e == s + "\n" + (body + "\n" + e);
  }

  /** A section holds its own two markers and neither of the other writer's. */
  lemma SectionMarkers(p: Payload, m: Marker)
    requires Clean(p)
    ensures Contains(Section(p), m.Text()) <==> m.kind == p.Kind()
  {
    var start, end := Start(p.Kind()), End(p.Kind());
    MarkerShape(m);
    MarkersApart(start, m);
    MarkersApart(end, m);
    BodyFree(p, m);
    LinesContain(start.Text(), Body(p), end.Text(), m.Text());
  }

  lemma SectionEdges(p: Payload)
    ensures |Section(p)| > 27 && Section(p)[0] == '<' && Section(p)[|Section(p)| - 1] == '>'
  {
    MarkerShape(Start(p.Kind()));
    MarkerShape(End(p.Kind()));
  }

  // ---------------------------------------------------------------- one splice

  /** A section that stands after complete lines free of its markers is exactly what a splice replaces. */
  lemma SpliceReplaces(a: string, s: string, body: string, e: string, b: string, section: string)
    requires s != "" && e != "" && '\n' !in s && '\n' !in e
    requires !Contains(a, s) && !Contains(a, e) && !Contains(s, e) && !Contains(body, e)
    requires a != "" ==> a[|a| - 1] == '\n'
    ensures Splice(a + (s + "\n" + body + "\n" + e) + b, s, e, section)
         == RStrip(a) + "\n\n" + section + "\n" + LStrip(b)
  {
    var text := a + (s + "\n" + body + "\n" + e) + b;
    LeadFree(a, s, body, e);
    Decompose(a, s, body, e, b);
    SpliceBetween(text, a, s, "\n" + body + "\n" + e + b, a + s + "\n" + body + "\n", e, b, section);
  }

  lemma Decompose(a: string, s: string, body: string, e: string, b: string)
    ensures var text := a + (s + "\n" + body + "\n" + e) + b;
      text == a + s + ("\n" + body + "\n" + e + b) && text == a + s + "\n" + body + "\n" + e + b
  {
  }

  lemma SpliceBetween(text: string, a: string, s: string, rest: string, lead: string, e: string, b: string,
                      section: string)
    requires s != "" && e != "" && '\n' !in s && '\n' !in e
    requires !Contains(a, s) && (a != "" ==> a[|a| - 1] == '\n')
    requires !Contains(lead, e) && (lead != "" ==> lead[|lead| - 1] == '\n')
    requires text == a + s + rest && text == lead + e + b
    ensures Splice(text, s, e, section) == RStrip(a) + "\n\n" + section + "\n" + LStrip(b)
  {
    FirstAfterLines(a, s, rest);
    FirstAfterLines(lead, e, b);
    assert text[..|a|] == a;
    assert text[|lead| + |e|..] == b;
  }

  lemma LeadFree(a: string, s: string, body: string, e: string)
    requires e != "" && '\n' !in e
    requires !Contains(a, e) && !Contains(s, e) && !Contains(body, e)
    requires a != "" ==> a[|a| - 1] == '\n'
    ensures !Contains(a + s + "\n" + body + "\n", e)
  {
    assert !Contains("", e);
    if a == "" {
      assert a + s == s;
    } else {
      var lines := a[..|a| - 1];
      assert lines + "\n" + "" == a && lines + "\n" + s == a + s;
      SplitAtNewline(lines, "", e);
      SplitAtNewline(lines, s, e);
    }
    LinesContain(a + s, body, "", e);
    assert a + s + "\n" + body + "\n" + "" == a + s + "\n" + body + "\n";
  }

  // ---------------------------------------------------------------- every interleaving of the two writers

  function Other(k: Kind): Kind {
    if k.Readiness? then Probe else Readiness
  }

  predicate Has(patches: seq<Payload>, k: Kind) {
    exists p <- patches :: p.Kind() == k
  }

  /** How often one writer patched. */
  function Times(patches: seq<Payload>, k: Kind): nat {
    if patches == [] then 0
    else Times(patches[..|patches| - 1], k) + (if patches[|patches| - 1].Kind() == k then 1 else 0)
  }

  /** Neither marker of a writer. */
  predicate Free(s: string, k: Kind) {
    !Contains(s, Start(k).Text()) && !Contains(s, End(k).Text())
  }

  predicate HoldsBoth(s: string, k: Kind) {
    Contains(s, Start(k).Text()) && Contains(s, End(k).Text())
  }

  /** What a writer that patches so often can bear in the original report: any marker of its own if it never
      patches, one of the two if it patches once, none if it patches again. */
  predicate Tolerates(base: string, times: nat, k: Kind) {
    times == 0 || (times == 1 && !HoldsBoth(base, k)) || Free(base, k)
  }

  lemma {:induction false} TimesHas(patches: seq<Payload>, k: Kind)
    ensures Times(patches, k) > 0 <==> Has(patches, k)
  {
    if patches != [] {
      var n := |patches| - 1;
      TimesHas(patches[..n], k);
      assert patches == patches[..n] + [patches[n]];
    }
  }

  /** The last payload of one writer. */
  function Latest(patches: seq<Payload>, k: Kind): (p: Payload)
    requires Has(patches, k)
    ensures p in patches && p.Kind() == k
  {
    var last := patches[|patches| - 1];
    if last.Kind() == k then last else
      assert forall p <- patches :: p == last || p in patches[..|patches| - 1];
      Latest(patches[..|patches| - 1], k)
  }

  /** The report after some patches, said without running them: the original text without its
      trailing whitespace, then one section per writer that patched, in the order of their first
      patches, each with that writer's last payload. Only the gap between the two sections
      depends on more: it is one line break when the last patch refreshed the first section. */
  function Expected(base: string, patches: seq<Payload>): string
    requires patches != []
  {
    var first := patches[0].Kind();
    var head := RStrip(base) + "\n\n" + Section(Latest(patches, first));
    if Has(patches, Other(first)) then
      head + (if patches[|patches| - 1].Kind() == first then "\n" else "\n\n")
      + Section(Latest(patches, Other(first))) + "\n"
    else
      head + "\n"
  }

  lemma ReplaceOwn(a: string, q: Payload, b: string, p: Payload)
    requires Clean(q) && q.Kind() == p.Kind()
    requires !Contains(a, Start(p.Kind()).Text()) && !Contains(a, End(p.Kind()).Text())
    requires a != "" ==> a[|a| - 1] == '\n'
    ensures PatchText(a + Section(q) + b, p) == RStrip(a) + "\n\n" + Section(p) + "\n" + LStrip(b)
  {
    hide Body, Splice, RStrip, LStrip, Stem;
    var start, end := Start(p.Kind()), End(p.Kind());
    MarkerShape(start);
    MarkerShape(end);
    BodyFree(q, end);
    MarkersApart(start, end);
    SpliceReplaces(a, start.Text(), Body(q), end.Text(), b, Section(p));
  }

  lemma Seams(kept: string, gap: string)
    requires kept != "" ==> !IsSpace(kept[|kept| - 1])
    requires gap == "\n" || gap == "\n\n"
    ensures RStrip(kept + gap) == kept && LStrip(gap) == ""
  {
    RStripUnique(kept, gap);
    LStripUnique(gap, "");
    assert gap + "" == gap;
  }

  lemma NewlinesFree(a: string, gap: string, t: string)
    requires t != "" && '\n' !in t && !Contains(a, t)
    requires gap == "\n" || gap == "\n\n"
    ensures !Contains(a + gap, t)
  {
    assert !Contains("", t);
    SplitAtNewline(a, "", t);
    assert a + "\n" + "" == a + "\n";
    SplitAtNewline(a + "\n", "", t);
    assert a + "\n" + "\n" + "" == a + "\n\n";
  }

  lemma FirstPatch(base: string, p: Payload)
    requires !HoldsBoth(base, p.Kind())
    ensures PatchText(base, p) == RStrip(base) + "\n\n" + Section(p) + "\n"
  {
    hide Section, Contains, RStrip;
  }

  predicate Trimmed(r: string) {
    r != "" ==> !IsSpace(r[|r| - 1])
  }

  lemma AbsentFromRStrip(base: string, t: string)
    requires !Contains(base, t)
    ensures !Contains(RStrip(base), t)
  {
    var r := RStrip(base);
    RStripShape(base);
    forall k | 0 <= k <= |r| && OccursAt(r, t, k) ensures OccursAt(base, t, k) {
      assert base[k..k + |t|] == r[k..k + |t|];
    }
  }

  lemma RefreshOnly(r: string, q: Payload, p: Payload)
    requires Trimmed(r) && Free(r, p.Kind())
    requires Clean(q) && q.Kind() == p.Kind()
    ensures PatchText(r + "\n\n" + Section(q) + "\n", p) == r + "\n\n" + Section(p) + "\n"
  {
    hide Section, PatchText, Stem, Contains, RStrip, LStrip;
    MarkerShape(Start(p.Kind()));
    MarkerShape(End(p.Kind()));
    NewlinesFree(r, "\n\n", Start(p.Kind()).Text());
    NewlinesFree(r, "\n\n", End(p.Kind()).Text());
    ReplaceOwn(r + "\n\n", q, "\n", p);
    Seams(r, "\n\n");
    Seams("", "\n");
    Regroup(r, "\n\n", Section(p) + "\n", "");
  }

  lemma LeadSpace(r: string, k: Kind)
    requires Free(r, k)
    ensures Free(r + "\n\n", k)
  {
    MarkerShape(Start(k));
    MarkerShape(End(k));
    NewlinesFree(r, "\n\n", Start(k).Text());
    NewlinesFree(r, "\n\n", End(k).Text());
  }

  /** Base and the other writer's section hold none of this writer's markers. */
  lemma FirstSectionFree(r: string, q: Payload, gap: string, m: Marker)
    requires !Contains(r, m.Text()) && Clean(q) && m.kind != q.Kind()
    requires gap == "\n" || gap == "\n\n"
    ensures !Contains(r + "\n\n" + Section(q), m.Text()) && !Contains(r + "\n\n" + Section(q) + gap, m.Text())
  {
    hide Section, Stem;
    var t := m.Text();
    MarkerShape(m);
    SectionMarkers(q, m);
    assert !Contains(r, t) && !Contains("", t);
    SplitAtNewline(r, "", t);
    assert r + "\n" + "" == r + "\n";
    SplitAtNewline(r + "\n", Section(q), t);
    assert r + "\n" + "\n" + Section(q) == r + "\n\n" + Section(q);
    NewlinesFree(r + "\n\n" + Section(q), gap, t);
  }

  lemma AddSecond(r: string, q: Payload, p: Payload)
    requires Trimmed(r) && !HoldsBoth(r, p.Kind()) && Clean(q) && q.Kind() != p.Kind()
    ensures PatchText(r + "\n\n" + Section(q) + "\n", p)
         == r + "\n\n" + Section(q) + "\n\n" + Section(p) + "\n"
  {
    hide Section, Stem, Contains, RStrip, Marker.Text, PatchText;
    if !Contains(r, Start(p.Kind()).Text()) {
      FirstSectionFree(r, q, "\n", Start(p.Kind()));
    } else {
      FirstSectionFree(r, q, "\n", End(p.Kind()));
    }
    FirstPatch(r + "\n\n" + Section(q) + "\n", p);
    SectionEdges(q);
    Seams(r + "\n\n" + Section(q), "\n");
  }

  lemma RefreshFirst(r: string, q: Payload, gap: string, other: Payload, p: Payload)
    requires Trimmed(r) && Free(r, p.Kind()) && Clean(q) && q.Kind() == p.Kind() && Clean(other)
    requires gap == "\n" || gap == "\n\n"
    ensures PatchText(r + "\n\n" + Section(q) + gap + Section(other) + "\n", p)
         == r + "\n\n" + Section(p) + "\n" + Section(other) + "\n"
  {
    hide Section, PatchText, Stem, MarkerFree, RStrip, LStrip, Clean, Contains;
    var tail := Section(other) + "\n";
    LeadSpace(r, p.Kind());
    ReplaceOwn(r + "\n\n", q, gap + tail, p);
    Seams(r, "\n\n");
    SectionEdges(other);
    LStripUnique(gap, tail);
    Regroup(r + "\n\n" + Section(q), gap, Section(other), "\n");
    Regroup(r + "\n\n" + Section(p), "\n", Section(other), "\n");
  }

  lemma Regroup(a: string, b: string, c: string, d: string)
    ensures a + b + c + d == a + (b + (c + d)) && a + b + c + d == a + b + (c + d)
  {
  }

  lemma RefreshSecond(r: string, first: Payload, gap: string, q: Payload, p: Payload)
    requires Free(r, p.Kind()) && Clean(first) && Clean(q) && q.Kind() == p.Kind() && first.Kind() != p.Kind()
    requires gap == "\n" || gap == "\n\n"
    ensures PatchText(r + "\n\n" + Section(first) + gap + Section(q) + "\n", p)
         == r + "\n\n" + Section(first) + "\n\n" + Section(p) + "\n"
  {
    hide Section, PatchText, Stem, MarkerFree, RStrip, LStrip;
    var a := r + "\n\n" + Section(first);
    FirstSectionFree(r, first, gap, Start(p.Kind()));
    FirstSectionFree(r, first, gap, End(p.Kind()));
    ReplaceOwn(a + gap, q, "\n", p);
    SectionEdges(first);
    Seams(a, gap);
    Seams("", "\n");
    Regroup(a, "\n\n", Section(p) + "\n", "");
  }

  lemma LatestSnoc(patches: seq<Payload>, p: Payload, k: Kind)
    ensures Has(patches + [p], k) <==> p.Kind() == k || Has(patches, k)
    ensures p.Kind() == k ==> Latest(patches + [p], k) == p
    ensures p.Kind() != k && Has(patches, k) ==> Latest(patches + [p], k) == Latest(patches, k)
  {
    var all := patches + [p];
    assert all[..|all| - 1] == patches;
    assert p in all;
    assert forall x <- patches :: x in all;
  }

  lemma RStripFree(base: string, k: Kind)
    ensures Free(base, k) ==> Free(RStrip(base), k)
    ensures !HoldsBoth(base, k) ==> !HoldsBoth(RStrip(base), k)
  {
    hide Contains, RStrip;
    if !Contains(base, Start(k).Text()) { AbsentFromRStrip(base, Start(k).Text()); }
    if !Contains(base, End(k).Text()) { AbsentFromRStrip(base, End(k).Text()); }
  }

  /** One more patch of a report that looks as expected makes it look as expected again. */
  lemma ExpectedStep(base: string, patches: seq<Payload>, p: Payload)
    requires patches != [] && Clean(p) && forall q <- patches :: Clean(q)
    requires if Has(patches, p.Kind()) then Free(base, p.Kind()) else !HoldsBoth(base, p.Kind())
    ensures PatchText(Expected(base, patches), p) == Expected(base, patches + [p])
  {
    hide Section, PatchText, Stem, Clean, Contains, RStrip;
    var r, first := RStrip(base), patches[0].Kind();
    RStripShape(base);
    RStripFree(base, p.Kind());
    assert patches[0] in patches;
    LatestSnoc(patches, p, first);
    LatestSnoc(patches, p, Other(first));
    var q := Latest(patches, first);
    if !Has(patches, Other(first)) {
      if p.Kind() == first {
        RefreshOnly(r, q, p);
      } else {
        AddSecond(r, q, p);
      }
    } else {
      var gap := if patches[|patches| - 1].Kind() == first then "\n" else "\n\n";
      var second := Latest(patches, Other(first));
      if p.Kind() == first {
        RefreshFirst(r, q, gap, second, p);
      } else {
        RefreshSecond(r, q, gap, second, p);
      }
    }
  }

  // Reading a patched report back does not change it.

  lemma {:induction false} ReadTextLines(raw: string)
    ensures '\r' !in ReadText(raw)
    ensures '\r' !in raw ==> ReadText(raw) == raw
    decreases |raw|
  {
    if raw != "" {
      ReadTextLines(raw[1..]);
      if |raw| > 1 {
        ReadTextLines(raw[2..]);
      }
    }
  }

  lemma {:induction false} LayoutLines(lines: seq<Line>)
    requires forall l <- lines :: l.Item? ==> '\r' !in l.value
    ensures '\r' !in Layout(lines)
  {
    hide Title.Text, Key.Text;
    if |lines| > 0 {
      if lines[0].Plain? {
        TitleQuiet(lines[0].title);
      } else if lines[0].Item? {
        KeyQuiet(lines[0].key);
      }
      assert '\r' !in lines[0].Text();
      if |lines| > 1 {
        LayoutLines(lines[1..]);
      }
    }
  }

  lemma SectionLines(p: Payload)
    requires Clean(p)
    ensures '\r' !in Section(p)
  {
    hide Stem, Lines;
    MarkerShape(Start(p.Kind()));
    MarkerShape(End(p.Kind()));
    LayoutLines(Lines(p));
  }

  lemma ExpectedLines(base: string, patches: seq<Payload>)
    requires '\r' !in base && patches != []
    requires forall q <- patches :: Clean(q)
    ensures '\r' !in Expected(base, patches)
  {
    hide Section, Clean;
    var first := patches[0].Kind();
    assert patches[0] in patches;
    SectionLines(Latest(patches, first));
    if Has(patches, Other(first)) {
      SectionLines(Latest(patches, Other(first)));
    }
    RStripShape(base);
    assert forall c <- RStrip(base) :: c in base;
  }

  lemma TimesSnoc(patches: seq<Payload>, p: Payload, k: Kind)
    ensures Times(patches + [p], k) == Times(patches, k) + (if p.Kind() == k then 1 else 0)
  {
    assert (patches + [p])[..|patches|] == patches;
  }

  /** Main theorem. Whatever the interleaving of the two writers, a report that held no more of their markers
      than they tolerate, none for instance, is afterwards exactly the expected one. */
  lemma {:induction false} EveryInterleaving(raw: string, patches: seq<Payload>)
    requires forall k: Kind :: Tolerates(ReadText(raw), Times(patches, k), k)
    requires forall p <- patches :: Clean(p)
    ensures PatchAll(Content(raw), patches)
         == Content(if patches == [] then raw else Expected(ReadText(raw), patches))
    decreases |patches|
  {
    hide Section, PatchText, Clean, Contains, Times;
    if patches != [] {
      var base, earlier, p := ReadText(raw), patches[..|patches| - 1], patches[|patches| - 1];
      assert earlier + [p] == patches;
      forall k: Kind ensures Tolerates(base, Times(earlier, k), k) { TimesSnoc(earlier, p, k); }
      EveryInterleaving(raw, earlier);
      ReadTextLines(raw);
      TimesSnoc(earlier, p, p.Kind());
      TimesHas(earlier, p.Kind());
      assert Tolerates(base, Times(patches, p.Kind()), p.Kind());
      if earlier == [] {
        FirstPatch(base, p);
        assert patches == [p] && patches[0] == p && Latest(patches, p.Kind()) == p;
      } else {
        ExpectedLines(base, earlier);
        ReadTextLines(Expected(base, earlier));
        ExpectedStep(base, earlier, p);
      }
    }
  }

  lemma MarkerFreeTolerated(base: string, times: nat, k: Kind)
    requires MarkerFree(base)
    ensures Tolerates(base, times, k)
  {
    assert !Contains(base, Start(k).Text()) && !Contains(base, End(k).Text());
  }

  /** On every reachable report a writer's later patch erases its earlier one, wherever its
      section stands and whatever the other writer put there; in particular patching twice with
      one payload is patching once. */
  lemma LastWriterWins(raw: string, patches: seq<Payload>, p: Payload, q: Payload)
    requires MarkerFree(ReadText(raw)) && p.Kind() == q.Kind() && Clean(p) && Clean(q)
    requires forall x <- patches :: Clean(x)
    ensures PatchAll(Content(raw), patches + [p, q]) == PatchAll(Content(raw), patches + [q])
  {
    hide Section, PatchText, Clean, MarkerFree, Tolerates;
    forall n: nat, k: Kind ensures Tolerates(ReadText(raw), n, k) { MarkerFreeTolerated(ReadText(raw), n, k); }
    EveryInterleaving(raw, patches + [q]);
    EveryInterleaving(raw, patches + [p, q]);
    var k := p.Kind();
    assert patches + [p, q] == patches + [p] + [q];
    LatestSnoc(patches, q, k);
    LatestSnoc(patches, q, Other(k));
    LatestSnoc(patches, p, k);
    LatestSnoc(patches, p, Other(k));
    LatestSnoc(patches + [p], q, k);
    LatestSnoc(patches + [p], q, Other(k));
  }
}
