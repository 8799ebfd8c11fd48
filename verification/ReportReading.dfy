/** What a reader finds in a report: the values a section shows, name by name, and that after any tolerated
    interleaving each writer's last payload stands between its markers. */
module ReportReading {
  import opened Decimals
  import opened Text
  import opened ReportSplice
  import opened ReportSpliceExact
  import opened ReportWords
  import opened ReportMarks
  import opened ReportInterleaving

  // ---------------------------------------------------------------- the reader

  /** A text cut at its line feeds. */
  function SplitLines(t: string): (lines: seq<string>)
    ensures lines != []
  {
    if t == "" then [""]
    else if t[0] == '\n' then [""] + SplitLines(t[1..])
    else
      var rest := SplitLines(t[1..]);
      [[t[0]] + rest[0]] + rest[1..]
  }

  /** The value a line shows under a name. */
  function ValueIn(line: string, name: string): Option<string> {
    var head := "- " + name + ": ";
    if head <= line then Some(line[|head|..]) else None
  }

  function ValuesIn(lines: seq<string>, name: string): seq<string> {
    if lines == [] then []
    else
      var v := ValueIn(lines[0], name);
      (if v.Some? then [v.value] else []) + ValuesIn(lines[1..], name)
  }

  /** All values a text shows under a name, line by line. */
  function Values(t: string, name: string): seq<string> {
    ValuesIn(SplitLines(t), name)
  }

  predicate ShowsReadiness(t: string, state: string, enabled: string, missing: string) {
    && Values(t, "state") == [state]
    && Values(t, "enabled") == [enabled]
    && Values(t, "missing_required_count") == [missing]
    && Values(t, "probe_performed") == ["False"]
    && "## Connectivity readiness" in SplitLines(t)
    && "- No network calls were performed." in SplitLines(t)
  }

  predicate ShowsProbe(t: string, state: string, scope: string, performed: string, status: string, latency: string,
                       stored: string) {
    && Values(t, "state") == [state]
    && Values(t, "network_scope") == [scope]
    && Values(t, "probe_performed") == [performed]
    && Values(t, "http_status") == [status]
    && Values(t, "latency_ms") == [latency]
    && Values(t, "response_body_stored") == [stored]
    && Values(t, "external connectivity") == ["not used"]
    && "## Connectivity probe" in SplitLines(t)
  }

  predicate Shows(t: string, p: Payload) {
    match p
    case ReadinessPayload(state, enabled, missing) => ShowsReadiness(t, state, enabled, missing)
    case ProbePayload(state, scope, performed, status, latency, stored) =>
      ShowsProbe(t, state, scope, performed, status, latency, stored)
  }

  /** Values that stay on their line. */
  predicate OneLine(p: Payload) {
    forall l <- Lines(p) :: l.Item? ==> '\n' !in l.value
  }

  // ---------------------------------------------------------------- lines of a section

  lemma {:induction false} SplitAtBreak(a: string, b: string)
    requires '\n' !in a
    ensures SplitLines(a + "\n" + b) == [a] + SplitLines(b)
  {
    if a == "" {
      assert (a + "\n" + b)[1..] == b;
    } else {
      assert (a + "\n" + b)[1..] == a[1..] + "\n" + b;
      SplitAtBreak(a[1..], b);
      assert [a[0]] + a[1..] == a;
    }
  }

  lemma {:induction false} SplitNothing(a: string)
    requires '\n' !in a
    ensures SplitLines(a) == [a]
  {
    if a != "" {
      SplitNothing(a[1..]);
      assert [a[0]] + a[1..] == a;
    }
  }

  function TextsOf(lines: seq<Line>): seq<string> {
    if lines == [] then [] else [lines[0].Text()] + TextsOf(lines[1..])
  }

  predicate Undivided(s: string) {
    forall i :: 0 <= i < |s| ==> s[i] != '\n' && s[i] != ':'
  }

  lemma TitleStays(t: Title)
    ensures Undivided(t.Text())
  {
    match t {
      case ReadinessTitle => assert Undivided("## Connectivity readiness");
      case ProbeTitle => assert Undivided("## Connectivity probe");
      case NoNetworkCalls => assert Undivided("- No network calls were performed.");
    }
  }

  lemma KeyStays(k: Key)
    ensures '\n' !in k.Text()
  {
    match k { case _ => }
  }

  lemma LineStays(l: Line)
    requires l.Item? ==> '\n' !in l.value
    ensures '\n' !in l.Text()
  {
    hide Title.Text, Key.Text;
    match l {
      case Plain(w) => TitleStays(w);
      case Empty =>
      case Item(k, v) => KeyStays(k);
    }
  }

  lemma {:induction false} LayoutSplit(lines: seq<Line>)
    requires lines != [] && forall l <- lines :: l.Item? ==> '\n' !in l.value
    ensures SplitLines(Layout(lines)) == TextsOf(lines)
  {
    hide Line.Text;
    LineStays(lines[0]);
    if |lines| == 1 {
      SplitNothing(lines[0].Text());
      assert TextsOf(lines[1..]) == [];
    } else {
      LayoutSplit(lines[1..]);
      SplitAtBreak(lines[0].Text(), Layout(lines[1..]));
    }
  }

  // ---------------------------------------------------------------- what a line shows

  lemma KeyLength(k: Key)
    ensures |k.Text()| == match k
      case State => 5 case Enabled => 7 case MissingRequiredCount => 22 case ProbePerformed => 15
      case NetworkScope => 13 case HttpStatus => 11 case LatencyMs => 10 case ResponseBodyStored => 20
      case ExternalConnectivity => 21
  {
  }

  lemma KeysApart(k: Key, l: Key)
    requires k.Text() == l.Text()
    ensures k == l
  {
    hide Key.Text;
    KeyLength(k);
    KeyLength(l);
  }

  lemma KeyPlain(k: Key)
    ensures ':' !in k.Text()
  {
    match k { case _ => }
  }

  lemma FirstColon(a: string, x: string)
    requires ':' !in a
    ensures var s := a + ": " + x; s[|a|] == ':' && forall i :: 0 <= i < |a| ==> s[i] == a[i] && s[i] != ':'
  {
  }

  lemma NameFirst(a: string, x: string, b: string, y: string)
    requires ':' !in a && ':' !in b && a + ": " + x <= b + ": " + y
    ensures a == b
  {
    var r, s := a + ": " + x, b + ": " + y;
    FirstColon(a, x);
    FirstColon(b, y);
    assert forall i :: 0 <= i < |r| ==> r[i] == s[i];
    assert |a| == |b|;
  }

  lemma ItemShows(k: Key, v: string, name: string)
    requires ':' !in name
    ensures ValueIn(Item(k, v).Text(), name) == if k.Text() == name then Some(v) else None
  {
    hide Key.Text;
    KeyPlain(k);
    var line, head := Item(k, v).Text(), "- " + name + ": ";
    assert name + ": " + "" == name + ": ";
    assert line[2..] == k.Text() + ": " + v && head[2..] == name + ": ";
    if head <= line {
      assert line[2..][..|head| - 2] == head[2..];
      NameFirst(name, "", k.Text(), v);
    }
    if k.Text() == name {
      assert line == head + v;
    }
  }

  lemma ColonKept(name: string, text: string)
    requires "- " + name + ": " <= text
    ensures ':' in text
  {
    var head := "- " + name + ": ";
    assert text[|head| - 2] == head[|head| - 2] == ':';
  }

  lemma PlainShows(text: string, name: string)
    requires ':' !in text
    ensures ValueIn(text, name) == None
  {
    if "- " + name + ": " <= text { ColonKept(name, text); }
  }

  lemma LineShows(l: Line, name: string)
    requires ':' !in name
    ensures ValueIn(l.Text(), name) == if l.Item? && l.key.Text() == name then Some(l.value) else None
  {
    match l {
      case Plain(w) =>
        TitleStays(w);
        PlainShows(w.Text(), name);
      case Empty => PlainShows("", name);
      case Item(k, v) => ItemShows(k, v, name);
    }
  }

  /** The values of one key, line by line. */
  function ValuesOf(lines: seq<Line>, k: Key): seq<string> {
    if lines == [] then []
    else (if lines[0].Item? && lines[0].key == k then [lines[0].value] else []) + ValuesOf(lines[1..], k)
  }

  lemma {:induction false} TextsShow(lines: seq<Line>, k: Key)
    ensures ValuesIn(TextsOf(lines), k.Text()) == ValuesOf(lines, k)
  {
    hide Line.Text, Key.Text;
    if lines != [] {
      KeyPlain(k);
      LineShows(lines[0], k.Text());
      if lines[0].Item? && lines[0].key.Text() == k.Text() { KeysApart(lines[0].key, k); }
      TextsShow(lines[1..], k);
      assert TextsOf(lines)[1..] == TextsOf(lines[1..]);
    }
  }

  lemma {:induction false} TextsHold(lines: seq<Line>, l: Line)
    requires l in lines
    ensures l.Text() in TextsOf(lines)
  {
    hide Line.Text;
    if lines[0] != l {
      TextsHold(lines[1..], l);
    }
  }

  /** A body shows each value of its payload under its own name, and under no name anything else. */
  lemma BodyShows(p: Payload)
    requires OneLine(p)
    ensures Shows(Body(p), p)
  {
    hide Line.Text, SplitLines, ValuesIn, TextsOf, Layout;
    LayoutSplit(Lines(p));
    forall k: Key ensures Values(Body(p), k.Text()) == ValuesOf(Lines(p), k) { TextsShow(Lines(p), k); }
    PayloadValues(p);
    NamesOfKeys();
    TitlesHeld(p);
  }

  predicate Bullet(line: string, name: string, value: string) {
    line == "- " + name + ": " + value
  }

  /** The lines of a body, from the first to the last. */
  predicate LinesSaid(lines: seq<string>, p: Payload) {
    match p
    case ReadinessPayload(state, enabled, missing) =>
      && |lines| == 7 && lines[0] == "## Connectivity readiness" && lines[1] == ""
      && Bullet(lines[2], "state", state) && Bullet(lines[3], "enabled", enabled)
      && Bullet(lines[4], "missing_required_count", missing) && Bullet(lines[5], "probe_performed", "False")
      && lines[6] == "- No network calls were performed."
    case ProbePayload(state, scope, performed, status, latency, stored) =>
      && |lines| == 9 && lines[0] == "## Connectivity probe" && lines[1] == ""
      && Bullet(lines[2], "state", state) && Bullet(lines[3], "network_scope", scope)
      && Bullet(lines[4], "probe_performed", performed) && Bullet(lines[5], "http_status", status)
      && Bullet(lines[6], "latency_ms", latency) && Bullet(lines[7], "response_body_stored", stored)
      && Bullet(lines[8], "external connectivity", "not used")
  }

  lemma {:induction false} TextAt(lines: seq<Line>, i: nat)
    requires i < |lines|
    ensures |TextsOf(lines)| == |lines| && TextsOf(lines)[i] == lines[i].Text()
  {
    hide Line.Text;
    if |lines| > 1 {
      TextAt(lines[1..], if i > 0 then i - 1 else 0);
    } else {
      assert lines[1..] == [];
    }
  }

  lemma ItemSaid(k: Key, v: string)
    ensures Bullet(Item(k, v).Text(), k.Text(), v)
  {
  }

  lemma LineTextsSaid(p: Payload, texts: seq<string>)
    requires |texts| == |Lines(p)| && forall i :: 0 <= i < |texts| ==> texts[i] == Lines(p)[i].Text()
    ensures LinesSaid(texts, p)
  {
    NamesOfKeys();
    assert Empty.Text() == "" && Plain(ReadinessTitle).Text() == "## Connectivity readiness";
    assert Plain(ProbeTitle).Text() == "## Connectivity probe";
    assert Plain(NoNetworkCalls).Text() == "- No network calls were performed.";
    hide Line.Text, Key.Text, Bullet;
    forall k: Key, v: string ensures Bullet(Item(k, v).Text(), k.Text(), v) { ItemSaid(k, v); }
  }

  /** A body is these lines in this order. */
  lemma BodyInOrder(p: Payload)
    requires OneLine(p)
    ensures LinesSaid(SplitLines(Body(p)), p)
  {
    hide SplitLines, TextsOf, Layout, LinesSaid, Line.Text;
    var lines := Lines(p);
    assert lines != [];
    LayoutSplit(lines);
    hide Lines;
    forall i: nat | i < |lines| ensures |TextsOf(lines)| == |lines| && TextsOf(lines)[i] == lines[i].Text() {
      TextAt(lines, i);
    }
    TextAt(lines, 0);
    LineTextsSaid(p, TextsOf(lines));
  }

  lemma NamesOfKeys()
    ensures State.Text() == "state" && Enabled.Text() == "enabled"
    ensures MissingRequiredCount.Text() == "missing_required_count"
    ensures ProbePerformed.Text() == "probe_performed" && NetworkScope.Text() == "network_scope"
    ensures HttpStatus.Text() == "http_status" && LatencyMs.Text() == "latency_ms"
    ensures ResponseBodyStored.Text() == "response_body_stored"
    ensures ExternalConnectivity.Text() == "external connectivity"
  {
  }

  lemma TitlesHeld(p: Payload)
    ensures p.ReadinessPayload? ==>
      "## Connectivity readiness" in TextsOf(Lines(p)) && "- No network calls were performed." in TextsOf(Lines(p))
    ensures p.ProbePayload? ==> "## Connectivity probe" in TextsOf(Lines(p))
  {
    hide TextsOf;
    var lines := Lines(p);
    if p.ReadinessPayload? {
      assert lines[0] == Plain(ReadinessTitle) && lines[6] == Plain(NoNetworkCalls);
      TextsHold(lines, Plain(ReadinessTitle));
      TextsHold(lines, Plain(NoNetworkCalls));
    } else {
      assert lines[0] == Plain(ProbeTitle);
      TextsHold(lines, Plain(ProbeTitle));
    }
  }

  function Of(l: Line, k: Key): seq<string> {
    if l.Item? && l.key == k then [l.value] else []
  }

  lemma NextValue(lines: seq<Line>, k: Key, i: nat)
    requires i < |lines|
    ensures ValuesOf(lines[i..], k) == Of(lines[i], k) + ValuesOf(lines[i + 1..], k)
  {
    assert lines[i..][1..] == lines[i + 1..];
  }

  lemma LastValue(lines: seq<Line>, k: Key)
    requires lines != []
    ensures ValuesOf(lines[|lines| - 1..], k) == Of(lines[|lines| - 1], k)
  {
    assert lines[|lines| - 1..] == [lines[|lines| - 1]];
    assert [lines[|lines| - 1]][1..] == [];
  }

  lemma SevenValues(l: seq<Line>, k: Key)
    requires |l| == 7
    ensures ValuesOf(l, k) ==
      Of(l[0], k) + (Of(l[1], k) + (Of(l[2], k) + (Of(l[3], k) + (Of(l[4], k) + (Of(l[5], k) + Of(l[6], k))))))
  {
    hide Of, ValuesOf;
    assert l[0..] == l;
    NextValue(l, k, 0);
    NextValue(l, k, 1);
    NextValue(l, k, 2);
    NextValue(l, k, 3);
    NextValue(l, k, 4);
    NextValue(l, k, 5);
    LastValue(l, k);
  }

  lemma NineValues(l: seq<Line>, k: Key)
    requires |l| == 9
    ensures ValuesOf(l, k) == Of(l[0], k) + (Of(l[1], k) + ValuesOf(l[2..], k))
    ensures |l[2..]| == 7
  {
    assert l[0..] == l;
    hide Of, ValuesOf;
    NextValue(l, k, 0);
    NextValue(l, k, 1);
  }

  lemma ReadinessValues(state: string, enabled: string, missing: string, k: Key)
    ensures ValuesOf(Lines(ReadinessPayload(state, enabled, missing)), k) == match k
      case State => [state] case Enabled => [enabled] case MissingRequiredCount => [missing]
      case ProbePerformed => ["False"] case _ => []
  {
    hide ValuesOf;
    SevenValues(Lines(ReadinessPayload(state, enabled, missing)), k);
  }

  lemma ProbeValues(state: string, scope: string, performed: string, status: string, latency: string, stored: string,
                    k: Key)
    ensures ValuesOf(Lines(ProbePayload(state, scope, performed, status, latency, stored)), k) == match k
      case State => [state] case NetworkScope => [scope] case ProbePerformed => [performed] case HttpStatus => [status]
      case LatencyMs => [latency] case ResponseBodyStored => [stored] case ExternalConnectivity => ["not used"]
      case _ => []
  {
    hide ValuesOf;
    var l := Lines(ProbePayload(state, scope, performed, status, latency, stored));
    NineValues(l, k);
    SevenValues(l[2..], k);
  }

  lemma PayloadValues(p: Payload)
    ensures p.ReadinessPayload? ==>
      && ValuesOf(Lines(p), State) == [p.state] && ValuesOf(Lines(p), Enabled) == [p.enabled]
      && ValuesOf(Lines(p), MissingRequiredCount) == [p.missingRequiredCount]
      && ValuesOf(Lines(p), ProbePerformed) == ["False"]
    ensures p.ProbePayload? ==>
      && ValuesOf(Lines(p), State) == [p.state] && ValuesOf(Lines(p), NetworkScope) == [p.networkScope]
      && ValuesOf(Lines(p), ProbePerformed) == [p.probePerformed] && ValuesOf(Lines(p), HttpStatus) == [p.httpStatus]
      && ValuesOf(Lines(p), LatencyMs) == [p.latencyMs]
      && ValuesOf(Lines(p), ResponseBodyStored) == [p.responseBodyStored]
      && ValuesOf(Lines(p), ExternalConnectivity) == ["not used"]
  {
    hide ValuesOf, Lines;
    match p {
      case ReadinessPayload(state, enabled, missing) =>
        forall k: Key { ReadinessValues(state, enabled, missing, k); }
      case ProbePayload(state, scope, performed, status, latency, stored) =>
        forall k: Key { ProbeValues(state, scope, performed, status, latency, stored, k); }
    }
  }

  /** The section itself: between the two literal markers, title first. */
  lemma SectionShows(p: Payload)
    requires OneLine(p)
    ensures Shows(Section(p), p)
    ensures var lines := SplitLines(Section(p));
      lines[0] == StartText(p) && lines[|lines| - 1] == EndText(p)
  {
    hide Body, Marker.Text, Shows, SplitLines, ValuesIn, StartText, EndText;
    var s, e, body := Start(p.Kind()).Text(), End(p.Kind()).Text(), Body(p);
    MarkerShape(Start(p.Kind()));
    MarkerShape(End(p.Kind()));
    SplitAtBreak(s, body + "\n" + e);
    assert Section(p) == s + "\n" + (body + "\n" + e);
    SplitEnd(body, e);
    BodyShows(p);
    MarkersShowNothing(SplitLines(body), s, e);
    assert SplitLines(Section(p)) == [s] + SplitLines(body) + [e];
    SameShown(body, Section(p), p);
    MarkerTexts(p);
  }

  /** The markers as they are written. */
  function StartText(p: Payload): string {
    "<!-- connectivity_" + (if p.ReadinessPayload? then "readiness" else "probe") + ":start -->"
  }

  function EndText(p: Payload): string {
    "<!-- connectivity_" + (if p.ReadinessPayload? then "readiness" else "probe") + ":end -->"
  }

  lemma Pieces(a: string, b: string, c: string, d: string, e: string)
    ensures a + (b + c) + d + e == (a + b) + c + (d + e)
  {
  }

  lemma MarkerTexts(p: Payload)
    ensures Start(p.Kind()).Text() == StartText(p) && End(p.Kind()).Text() == EndText(p)
  {
    var name := if p.ReadinessPayload? then "readiness" else "probe";
    assert Stem(p.Kind()) == "!-- connectivity_" + name by { StemText(p.Kind()); }
    hide Stem;
    assert "<" + "!-- connectivity_" == "<!-- connectivity_" by { Opened(); }
    assert ":start" + " -->" == ":start -->" && ":end" + " -->" == ":end -->" by { Closed(); }
    Pieces("<", "!-- connectivity_", name, ":start", " -->");
    Pieces("<", "!-- connectivity_", name, ":end", " -->");
  }

  lemma StemText(k: Kind)
    ensures Stem(k) == "!-- connectivity_" + if k.Readiness? then "readiness" else "probe"
  {
  }

  lemma Opened()
    ensures "<" + "!-- connectivity_" == "<!-- connectivity_"
  {
  }

  lemma Closed()
    ensures ":start" + " -->" == ":start -->" && ":end" + " -->" == ":end -->"
  {
  }

  lemma {:induction false} SplitEnd(a: string, b: string)
    requires '\n' !in b
    ensures SplitLines(a + "\n" + b) == SplitLines(a) + [b]
  {
    if a == "" {
      assert (a + "\n" + b)[1..] == b;
      SplitNothing(b);
    } else {
      assert (a + "\n" + b)[1..] == a[1..] + "\n" + b;
      SplitEnd(a[1..], b);
    }
  }

  lemma {:induction false} ValuesInConcat(a: seq<string>, b: seq<string>, name: string)
    ensures ValuesIn(a + b, name) == ValuesIn(a, name) + ValuesIn(b, name)
  {
    hide ValueIn;
    if a == [] {
      assert a + b == b;
    } else {
      assert (a + b)[1..] == a[1..] + b;
      ValuesInConcat(a[1..], b, name);
    }
  }

  /** A line that does not begin like a bullet shows nothing. */
  lemma NoBullet(line: string, name: string)
    requires line == "" || line[0] != '-'
    ensures ValuesIn([line], name) == []
  {
    var head := "- " + name + ": ";
    assert head[0] == '-';
    assert [line][1..] == [];
  }

  lemma MarkersShowNothing(lines: seq<string>, s: string, e: string)
    requires (s == "" || s[0] != '-') && (e == "" || e[0] != '-')
    ensures forall name :: ValuesIn([s] + lines + [e], name) == ValuesIn(lines, name)
    ensures forall l <- lines :: l in [s] + lines + [e]
  {
    hide ValuesIn;
    forall name ensures ValuesIn([s] + lines + [e], name) == ValuesIn(lines, name) {
      ValuesInConcat([s] + lines, [e], name);
      ValuesInConcat([s], lines, name);
      NoBullet(s, name);
      NoBullet(e, name);
    }
  }

  lemma SameShown(a: string, b: string, p: Payload)
    requires Shows(a, p) && (forall name :: Values(b, name) == Values(a, name))
    requires forall l <- SplitLines(a) :: l in SplitLines(b)
    ensures Shows(b, p)
  {
    hide ShowsReadiness, ShowsProbe;
    match p {
      case ReadinessPayload(state, enabled, missing) => SameReadiness(a, b, state, enabled, missing);
      case ProbePayload(state, scope, performed, status, latency, stored) =>
        SameProbe(a, b, state, scope, performed, status, latency, stored);
    }
  }

  lemma SameReadiness(a: string, b: string, state: string, enabled: string, missing: string)
    requires ShowsReadiness(a, state, enabled, missing) && (forall name :: Values(b, name) == Values(a, name))
    requires forall l <- SplitLines(a) :: l in SplitLines(b)
    ensures ShowsReadiness(b, state, enabled, missing)
  {
    hide Values, SplitLines;
  }

  lemma SameProbe(a: string, b: string, state: string, scope: string, performed: string, status: string,
                  latency: string, stored: string)
    requires ShowsProbe(a, state, scope, performed, status, latency, stored)
    requires forall name :: Values(b, name) == Values(a, name)
    requires forall l <- SplitLines(a) :: l in SplitLines(b)
    ensures ShowsProbe(b, state, scope, performed, status, latency, stored)
  {
    hide Values, SplitLines;
  }

  // ---------------------------------------------------------------- between the markers of a report

  /** What follows the last occurrence. */
  function AfterLast(t: string, needle: string): string
    requires Contains(t, needle) && needle != ""
    decreases |t|
  {
    var rest := t[IndexOf(t, needle) + |needle|..];
    if Contains(rest, needle) then AfterLast(rest, needle) else rest
  }

  /** From the last start marker to the next end marker. */
  function Between(t: string, start: string, end: string): string
    requires Contains(t, start) && start != ""
  {
    var rest := AfterLast(t, start);
    if Contains(rest, end) then rest[..IndexOf(rest, end)] else rest
  }

  lemma {:induction false} AfterThe(pre: string, m: Marker, rest: string)
    requires !Contains(rest, m.Text())
    ensures m.Text() != "" && Contains(pre + m.Text() + rest, m.Text())
    ensures AfterLast(pre + m.Text() + rest, m.Text()) == rest
    decreases |pre|
  {
    hide Marker.Text, IndexOf, Contains, AfterLast;
    var s := m.Text();
    var t := pre + s + rest;
    MarkerShape(m);
    assert t[|pre|..] == s + rest;
    OccursHere(t, s, |pre|);
    ContainsIntro(t, s, |pre|);
    var i := IndexOf(t, s);
    FirstNoLater(t, s, |pre|);
    if i < |pre| {
      NoOverlapping(t, m, i, |pre|);
      var more := pre[i + |s|..];
      assert t[i + |s|..] == more + s + rest;
      AfterThe(more, m, rest);
      AfterStep(t, s, more + s + rest);
    } else {
      assert t[i + |s|..] == rest;
      AfterEnd(t, s, rest);
    }
  }

  lemma FirstNoLater(t: string, needle: string, i: nat)
    requires OccursAt(t, needle, i)
    ensures Contains(t, needle) && IndexOf(t, needle) <= i
  {
    ContainsIntro(t, needle, i);
  }

  lemma NoOverlapping(t: string, m: Marker, i: nat, j: nat)
    requires OccursAt(t, m.Text(), i) && OccursAt(t, m.Text(), j) && i < j
    ensures i + |m.Text()| <= j
  {
    hide Marker.Text;
    MarkerShape(m);
    LetterAt(t, m, j, 0);
    forall k: nat | i < k < i + |m.Text()| ensures k < |t| && t[k] != '<' {
      LetterAt(t, m, i, k - i);
      assert m.Text()[1..][k - i - 1] == m.Text()[k - i];
    }
  }

  lemma AfterStep(t: string, needle: string, rest: string)
    requires Contains(t, needle) && needle != "" && t[IndexOf(t, needle) + |needle|..] == rest
    requires Contains(rest, needle)
    ensures AfterLast(t, needle) == AfterLast(rest, needle)
  {
    hide IndexOf, Contains;
  }

  lemma AfterEnd(t: string, needle: string, rest: string)
    requires Contains(t, needle) && needle != "" && t[IndexOf(t, needle) + |needle|..] == rest
    requires !Contains(rest, needle)
    ensures AfterLast(t, needle) == rest
  {
    hide IndexOf, Contains;
  }

  /** The body of a section behind which no start marker of its writer stands. */
  lemma BodyBetween(pre: string, p: Payload, post: string)
    requires Clean(p) && Start(p.Kind()) !in Marks(post) && (post == "" || post[0] == '\n')
    ensures var t, s, e := pre + Section(p) + post, Start(p.Kind()).Text(), End(p.Kind()).Text();
      s != "" && Contains(t, s) && Between(t, s, e) == "\n" + Body(p) + "\n"
  {
    hide Marker.Text, Marks, Contains, IndexOf, AfterLast, Body, Clean;
    var s, e, body := Start(p.Kind()), End(p.Kind()), Body(p);
    var lead, rest := "\n" + body + "\n", "\n" + body + "\n" + e.Text() + post;
    RestMarks(p, post);
    AfterThe(pre, s, rest);
    assert pre + s.Text() + rest == pre + Section(p) + post;
    MarkerShape(e);
    LeadMarks(p);
    MarksContain(lead, e);
    FirstAfterLines(lead, e.Text(), post);
    assert lead + e.Text() + post == rest && rest[..|lead|] == lead;
  }

  lemma LeadMarks(p: Payload)
    requires Clean(p)
    ensures Marks("\n" + Body(p) + "\n") == []
  {
    hide Marks, Body, Clean;
    BodyMarks(p);
    QuietMarks("\n", Body(p) + "\n");
    UncutBefore(Body(p), "\n");
    MarksConcat(Body(p), "\n");
    NoMarksIn("\n");
    assert "\n" + Body(p) + "\n" == "\n" + (Body(p) + "\n");
  }

  lemma RestMarks(p: Payload, post: string)
    requires Clean(p) && Start(p.Kind()) !in Marks(post)
    ensures !Contains("\n" + Body(p) + "\n" + End(p.Kind()).Text() + post, Start(p.Kind()).Text())
  {
    hide Marker.Text, Marks, Body, Clean, Contains;
    var e := End(p.Kind());
    var lead := "\n" + Body(p) + "\n";
    LeadMarks(p);
    UncutBeforeMarker(lead, e, post);
    MarksConcat(lead, e.Text() + post);
    MarkerMarks(e, post);
    assert lead + (e.Text() + post) == lead + e.Text() + post;
    MarksContain(lead + e.Text() + post, Start(p.Kind()));
  }

  lemma UncutBeforeMarker(a: string, m: Marker, b: string)
    ensures Uncut(a, m.Text() + b)
  {
    hide Marker.Text;
    MarkerShape(m);
    UncutBefore(a, m.Text() + b);
  }

  lemma InnerShows(p: Payload)
    requires OneLine(p)
    ensures Shows("\n" + Body(p) + "\n", p)
  {
    hide Body, Shows, SplitLines, ValuesIn;
    var body := Body(p);
    assert "\n" + body + "\n" == "" + "\n" + (body + "\n" + "");
    SplitAtBreak("", body + "\n" + "");
    SplitEnd(body, "");
    BodyShows(p);
    MarkersShowNothing(SplitLines(body), "", "");
    assert SplitLines("\n" + body + "\n") == [""] + SplitLines(body) + [""];
    SameShown(body, "\n" + body + "\n", p);
  }

  /** Where a writer's section stands in the expected report. */
  lemma SectionStands(base: string, patches: seq<Payload>, k: Kind) returns (pre: string, post: string)
    requires patches != [] && Has(patches, k) && forall p <- patches :: Clean(p)
    ensures Expected(base, patches) == pre + Section(Latest(patches, k)) + post
    ensures Start(k) !in Marks(post) && post != "" && post[0] == '\n'
  {
    hide Marks, Section, Clean, RStrip, Latest;
    var first, r := patches[0].Kind(), RStrip(base);
    NoMarksIn("\n");
    if !Has(patches, Other(first)) {
      pre, post := r + "\n\n", "\n";
      assert k == first;
    } else {
      var gap := if patches[|patches| - 1].Kind() == first then "\n" else "\n\n";
      var p, q := Latest(patches, first), Latest(patches, Other(first));
      if k == first {
        pre, post := r + "\n\n", gap + Section(q) + "\n";
        GapMarks(gap, q);
        assert Expected(base, patches) == pre + Section(p) + post;
      } else {
        pre, post := r + "\n\n" + Section(p) + gap, "\n";
      }
    }
  }

  lemma GapMarks(gap: string, q: Payload)
    requires Clean(q) && (gap == "\n" || gap == "\n\n")
    ensures Marks(gap + Section(q) + "\n") == Pair(q.Kind())
  {
    hide Marks, Section, Clean;
    QuietMarks(gap, Section(q) + "\n");
    UncutBefore(Section(q), "\n");
    MarksConcat(Section(q), "\n");
    SectionMarks(q);
    NoMarksIn("\n");
    assert gap + Section(q) + "\n" == gap + (Section(q) + "\n");
  }

  /** A report shows, between a writer's markers, what that payload says. */
  predicate Displays(t: string, p: Payload) {
    Contains(t, StartText(p)) && StartText(p) != "" && Shows(Between(t, StartText(p), EndText(p)), p)
  }

  lemma {:induction false} LatestIs(patches: seq<Payload>, i: nat)
    requires i < |patches| && forall j :: i < j < |patches| ==> patches[j].Kind() != patches[i].Kind()
    ensures Has(patches, patches[i].Kind()) && Latest(patches, patches[i].Kind()) == patches[i]
  {
    assert patches[i] in patches;
    var n := |patches| - 1;
    if i < n {
      LatestIs(patches[..n], i);
    }
  }

  /** Main result on content: after any tolerated interleaving the report shows, between a writer's markers, the
      payload of that writer's last patch. */
  lemma InterleavingShows(raw: string, patches: seq<Payload>, i: nat)
    requires i < |patches| && forall j :: i < j < |patches| ==> patches[j].Kind() != patches[i].Kind()
    requires forall p <- patches :: Clean(p) && OneLine(p)
    requires forall l: Kind :: Tolerates(ReadText(raw), Times(patches, l), l)
    ensures PatchAll(Content(raw), patches).Content?
    ensures Displays(PatchAll(Content(raw), patches).raw, patches[i])
  {
    hide Section, Body, Clean, OneLine, Marks, Contains, Between, Shows, Expected, Tolerates, ReadText, PatchAll;
    hide Marker.Text, StartText, EndText, Latest;
    EveryInterleaving(raw, patches);
    var p := patches[i];
    LatestIs(patches, i);
    var pre, post := SectionStands(ReadText(raw), patches, p.Kind());
    assert p in patches;
    BodyBetween(pre, p, post);
    InnerShows(p);
    MarkerTexts(p);
  }
}
