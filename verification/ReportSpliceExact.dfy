/** What a writer's patches leave on a report that holds markers of the writer, by equations, and exactly
    when a second patch leaves what it promises. */
module ReportSpliceExact {
  import opened Text
  import opened ReportSplice

  ghost predicate Delimiters(s: string, e: string) {
    && |s| > 27 && s[0] == '<' && s[|s| - 1] == '>' && '\n' !in s && '<' !in s[1..]
    && |e| > 27 && e[0] == '<' && e[|e| - 1] == '>' && '\n' !in e && '<' !in e[1..]
    && !Contains(s, e)
  }

  lemma InsideRStrip(text: string, t: string, i: int)
    requires t != "" && !IsSpace(t[|t| - 1]) && OccursAt(text, t, i)
    ensures i + |t| <= |RStrip(text)| && OccursAt(RStrip(text), t, i)
  {
    var r := RStrip(text);
    RStripShape(text);
    var last := i + |t| - 1;
    assert text[last] == text[i..i + |t|][|t| - 1];
    assert forall k :: |r| <= k < |text| ==> text[k] == text[|r|..][k - |r|];
    assert r[i..i + |t|] == text[i..i + |t|];
  }

  /** Occurrences inside a prefix are the occurrences of the whole text that end there. */
  lemma InPrefix(a: string, b: string, t: string, i: int)
    requires 0 <= i <= |a| - |t|
    ensures OccursAt(a + b, t, i) <==> OccursAt(a, t, i)
  {
    assert (a + b)[i..i + |t|] == a[i..i + |t|];
  }

  lemma FirstInPrefix(a: string, b: string, t: string)
    requires Contains(a, t)
    ensures Contains(a + b, t) && IndexOf(a + b, t) == IndexOf(a, t)
  {
    var i := IndexOf(a, t);
    InPrefix(a, b, t, i);
    forall j | 0 <= j < i ensures !OccursAt(a + b, t, j) {
      InPrefix(a, b, t, j);
    }
  }

  lemma DelimiterEdges(s: string, e: string)
    requires Delimiters(s, e)
    ensures |s| > 1 && |e| > 1 && !IsSpace(s[|s| - 1]) && !IsSpace(e[|e| - 1]) && !Contains(s, e)
    ensures '\n' !in s && '\n' !in e
  {
  }

  /** A lone start marker: the second patch drops everything from it on. */
  lemma StrayStart(base: string, s: string, e: string, body: string, section: string)
    requires Delimiters(s, e) && !Contains(body, e)
    requires Contains(base, s) && !Contains(base, e)
    ensures var x := RStrip(base[..IndexOf(base, s)]);
      && Splice(RStrip(base) + "\n\n" + Wrap(s, body, e) + "\n", s, e, section) == x + "\n\n" + section + "\n"
      && |x| < |RStrip(base)|
  {
    hide Splice, RStrip, LStrip, Contains, Wrap, IndexOf, Delimiters;
    DelimiterEdges(s, e);
    var i, r, rest := IndexOf(base, s), RStrip(base), "\n\n" + Wrap(s, body, e) + "\n";
    var x, text := RStrip(base[..i]), r + "\n\n" + Wrap(s, body, e) + "\n";
    assert text == r + rest;
    InsideRStrip(base, s, i);
    ContainsIntro(r, s, i);
    RStripShape(base);
    assert base == r + base[|r|..];
    FirstInPrefix(r, base[|r|..], s);
    FirstInPrefix(r, rest, s);
    assert text[..i] == base[..i];
    AbsentFromRStrip(base, e);
    AppendedEnd(r, s, body, e, "\n");
    Seams("", "\n");
    SplicePieces(text, s, e, section, x, "");
    RStripShape(base[..i]);
    assert x + "\n\n" + section + ("\n" + "") == x + "\n\n" + section + "\n";
  }

  lemma ContainsIntro(text: string, t: string, i: int)
    requires OccursAt(text, t, i)
    ensures Contains(text, t)
  {
  }

  /** A lone end marker: the second patch repeats what follows it, the first patch's section included. */
  lemma StrayEnd(base: string, s: string, e: string, body: string, section: string)
    requires Delimiters(s, e)
    requires !Contains(base, s) && Contains(base, e)
    ensures var r, cut := RStrip(base), IndexOf(base, e) + |e|;
      && cut <= |r|
      && Splice(r + "\n\n" + Wrap(s, body, e) + "\n", s, e, section)
         == r + "\n\n" + section + ("\n" + LStrip(r[cut..] + "\n\n" + Wrap(s, body, e) + "\n"))
      && |LStrip(r[cut..] + "\n\n" + Wrap(s, body, e) + "\n")| > 0
  {
    hide Splice, RStrip, LStrip, Contains, Wrap, IndexOf, Delimiters, OccursAt;
    DelimiterEdges(s, e);
    WrapEdges(s, body, e);
    var r := RStrip(base);
    var rest := "\n\n" + Wrap(s, body, e) + "\n";
    var text := r + "\n\n" + Wrap(s, body, e) + "\n";
    assert text == r + rest;
    InsideRStrip(base, e, IndexOf(base, e));
    ContainsIntro(r, e, IndexOf(base, e));
    RStripShape(base);
    assert base == r + base[|r|..];
    FirstInPrefix(r, base[|r|..], e);
    FirstInPrefix(r, rest, e);
    AbsentFromRStrip(base, s);
    AppendedStart(r, s, e, body, "\n");
    Seams(r, "\n\n");
    var cut := IndexOf(base, e) + |e|;
    assert text[cut..] == r[cut..] + "\n\n" + Wrap(s, body, e) + "\n";
    KeepsNonSpace(text[cut..], |r| + 2 - cut);
    SplicePieces(text, s, e, section, r, LStrip(text[cut..]));
  }

  /** Appended to text without it, a section's start marker is found where it was appended. */
  lemma AppendedStart(r: string, s: string, e: string, body: string, tail: string)
    requires Delimiters(s, e) && !Contains(r, s)
    ensures var text := r + "\n\n" + Wrap(s, body, e) + tail;
      && Contains(text, s) && IndexOf(text, s) == |r| + 2
      && text[..|r| + 2] == r + "\n\n" && |text| > |r| + 2 && text[|r| + 2] == '<'
  {
    hide Contains, IndexOf;
    var text, a, rest := r + "\n\n" + Wrap(s, body, e) + tail, r + "\n\n", "\n" + body + "\n" + e + tail;
    NewlinesFree(r, "\n\n", s);
    FirstAfterLines(a, s, rest);
    assert text == a + s + rest;
  }

  lemma KeepsNonSpace(text: string, i: nat)
    requires i < |text| && !IsSpace(text[i])
    ensures |LStrip(text)| >= |text| - i
  {
    var cut := |text| - |LStrip(text)|;
    LStripShape(text);
    assert forall k :: 0 <= k < cut ==> text[k] == text[..cut][k];
  }

  lemma SplicePieces(text: string, s: string, e: string, section: string, x: string, y: string)
    requires Contains(text, s) && Contains(text, e)
    requires RStrip(text[..IndexOf(text, s)]) == x && LStrip(text[IndexOf(text, e) + |e|..]) == y
    ensures Splice(text, s, e, section) == x + "\n\n" + section + ("\n" + y)
  {
    hide RStrip, LStrip, Contains, IndexOf;
    assert Splice(text, s, e, section) == x + "\n\n" + section + "\n" + y;
  }

  lemma AbsentBefore(base: string, t: string, i: int)
    requires Contains(base, t) && t != "" && 0 <= i <= |base| && i <= IndexOf(base, t)
    ensures !Contains(RStrip(base[..i]), t)
  {
    forall k | 0 <= k <= |base[..i]| && OccursAt(base[..i], t, k) ensures OccursAt(base, t, k) {
      assert base[k..k + |t|] == base[..i][k..k + |t|];
    }
    AbsentFromRStrip(base[..i], t);
  }

  /** The first patch of a report that holds both markers. */
  lemma OncePatched(base: string, s: string, e: string, body: string)
    requires Delimiters(s, e) && Contains(base, s) && Contains(base, e)
    ensures var x, y := RStrip(base[..IndexOf(base, s)]), LStrip(base[IndexOf(base, e) + |e|..]);
      var once := Splice(base, s, e, Wrap(s, body, e));
      && once == x + "\n\n" + Wrap(s, body, e) + ("\n" + y)
      && Contains(once, s) && RStrip(once[..IndexOf(once, s)]) == x
  {
    hide Splice, RStrip, LStrip, Contains, IndexOf, Wrap;
    var x, y := RStrip(base[..IndexOf(base, s)]), LStrip(base[IndexOf(base, e) + |e|..]);
    SplicePieces(base, s, e, Wrap(s, body, e), x, y);
    AbsentBefore(base, s, IndexOf(base, s));
    AppendedStart(x, s, e, body, "\n" + y);
    RStripShape(base[..IndexOf(base, s)]);
    Seams(x, "\n\n");
  }

  lemma EndsElsewhere(base: string, r: string, x: string, y: string, section: string)
    requires r <= base && AllSpace(base[|r|..]) && |base| - |r| > 1
    requires 1 < |y| <= |base| && y == base[|base| - |y|..]
    requires section != "" && section[|section| - 1] == '>'
    ensures x + "\n\n" + section + ("\n" + y) != r + "\n\n" + section + "\n"
  {
    var twice, wanted := x + "\n\n" + section + ("\n" + y), r + "\n\n" + section + "\n";
    var n := |x + "\n\n" + section|;
    assert twice[n + 1 + |y| - 2] == y[|y| - 2];
    assert y[|y| - 2] == base[|base| - 2] == base[|r|..][|base| - 2 - |r|];
    assert wanted[|wanted| - 2] == '>';
  }

  /** Patching again where nothing before the section holds a marker: only the section changes. */
  lemma AgainStartFirst(x: string, y: string, s: string, e: string, body: string, section: string)
    requires Delimiters(s, e) && !Contains(body, e) && !Contains(x, s) && !Contains(x, e)
    requires Trimmed(x) && LStrip("\n" + y) == y
    ensures Splice(x + "\n\n" + Wrap(s, body, e) + ("\n" + y), s, e, section) == x + "\n\n" + section + ("\n" + y)
  {
    hide Splice, RStrip, LStrip, Contains, IndexOf, Delimiters, Wrap;
    AppendedStart(x, s, e, body, "\n" + y);
    AppendedEnd(x, s, body, e, "\n" + y);
    Seams(x, "\n\n");
    SplicePieces(x + "\n\n" + Wrap(s, body, e) + ("\n" + y), s, e, section, x, y);
  }

  /** What stands before the first marker and after the first end marker, if the start marker comes first. */
  lemma OutsidePair(base: string, s: string, e: string)
    requires Delimiters(s, e) && Contains(base, s) && Contains(base, e) && IndexOf(base, s) <= IndexOf(base, e)
    ensures var x, y := RStrip(base[..IndexOf(base, s)]), LStrip(base[IndexOf(base, e) + |e|..]);
      Trimmed(x) && !Contains(x, s) && !Contains(x, e) && LStrip("\n" + y) == y
  {
    hide RStrip, LStrip, Contains, IndexOf, Delimiters;
    DelimiterEdges(s, e);
    AbsentBefore(base, s, IndexOf(base, s));
    AbsentBefore(base, e, IndexOf(base, s));
    RStripShape(base[..IndexOf(base, s)]);
    LStripShape(base[IndexOf(base, e) + |e|..]);
    LStripUnique("\n", LStrip(base[IndexOf(base, e) + |e|..]));
  }

  lemma StartFirstDiffers(base: string, s: string, e: string, section: string)
    requires Delimiters(s, e) && section != "" && section[|section| - 1] == '>'
    requires Contains(base, s) && Contains(base, e) && IndexOf(base, s) <= IndexOf(base, e)
    ensures RStrip(base[..IndexOf(base, s)]) + "\n\n" + section + ("\n" + LStrip(base[IndexOf(base, e) + |e|..]))
         != RStrip(base) + "\n\n" + section + "\n"
  {
    hide RStrip, LStrip, Contains, IndexOf, Delimiters;
    var i, c := IndexOf(base, s), IndexOf(base, e) + |e|;
    var r, x, y := RStrip(base), RStrip(base[..i]), LStrip(base[c..]);
    DelimiterEdges(s, e);
    InsideRStrip(base, s, i);
    RStripShape(base);
    RStripShape(base[..i]);
    LStripShape(base[c..]);
    if |y| == |r| - |x| {
      EndsElsewhere(base, r, x, y, section);
    }
  }

  /** Both markers, start first: the section replaces what stood between them, and the second patch
      refreshes it in place; nothing is appended. */
  lemma StrayPairStartFirst(base: string, s: string, e: string, body: string, section: string)
    requires Delimiters(s, e) && !Contains(body, e)
    requires section != "" && section[|section| - 1] == '>'
    requires Contains(base, s) && Contains(base, e) && IndexOf(base, s) <= IndexOf(base, e)
    ensures var x, y := RStrip(base[..IndexOf(base, s)]), LStrip(base[IndexOf(base, e) + |e|..]);
      && Splice(base, s, e, Wrap(s, body, e)) == x + "\n\n" + Wrap(s, body, e) + ("\n" + y)
      && Splice(Splice(base, s, e, Wrap(s, body, e)), s, e, section) == x + "\n\n" + section + ("\n" + y)
    ensures Splice(Splice(base, s, e, Wrap(s, body, e)), s, e, section) != RStrip(base) + "\n\n" + section + "\n"
  {
    hide Splice, RStrip, LStrip, Contains, IndexOf, Wrap, Delimiters;
    var x, y := RStrip(base[..IndexOf(base, s)]), LStrip(base[IndexOf(base, e) + |e|..]);
    OncePatched(base, s, e, body);
    OutsidePair(base, s, e);
    AgainStartFirst(x, y, s, e, body, section);
    StartFirstDiffers(base, s, e, section);
  }

  lemma AppendedEnd(x: string, s: string, body: string, e: string, tail: string)
    requires Delimiters(s, e) && !Contains(x, e) && !Contains(body, e)
    ensures var text := x + "\n\n" + Wrap(s, body, e) + tail;
      && Contains(text, e) && text[IndexOf(text, e) + |e|..] == tail
  {
    hide Contains, IndexOf;
    var text := x + "\n\n" + Wrap(s, body, e) + tail;
    var lead := x + "\n\n" + s + "\n" + body + "\n";
    NewlinesFree(x, "\n\n", e);
    LeadFree(x + "\n\n", s, body, e);
    FirstAfterLines(lead, e, tail);
    assert text == lead + e + tail;
  }

  lemma Apart(base: string, s: string, e: string, i: nat, j: nat)
    requires Delimiters(s, e) && OccursAt(base, s, i) && OccursAt(base, e, j) && j < i
    ensures j + |e| <= i
  {
    assert base[i] == base[i..i + |s|][0] == '<';
    assert forall k :: j < k < j + |e| ==> base[k] == base[j..j + |e|][k - j] == e[1..][k - j - 1];
  }

  lemma FoundWithin(t: string, needle: string)
    requires Contains(t, needle)
    ensures IndexOf(t, needle) + |needle| <= |t|
  {
    hide IndexOf;
  }

  lemma TrimmedPrefix(base: string, i: nat)
    requires i <= |base|
    ensures var x := RStrip(base[..i]); |x| <= i && base == x + base[|x|..]
  {
    hide RStrip;
    var x := RStrip(base[..i]);
    RStripShape(base[..i]);
    assert base[..i][..|x|] == base[..|x|];
  }

  lemma EndInside(base: string, s: string, e: string)
    requires Delimiters(s, e) && Contains(base, s) && Contains(base, e) && IndexOf(base, e) < IndexOf(base, s)
    ensures var i, x := IndexOf(base, s), RStrip(base[..IndexOf(base, s)]);
      IndexOf(base, e) + |e| <= |x| <= i && Contains(x, e) && IndexOf(x, e) == IndexOf(base, e)
  {
    hide RStrip, Contains, IndexOf, OccursAt;
    FoundWithin(base, s);
    var i, j := IndexOf(base, s), IndexOf(base, e);
    var x := RStrip(base[..i]);
    Apart(base, s, e, i, j);
    assert base == base[..i] + base[i..];
    InPrefix(base[..i], base[i..], e, j);
    DelimiterEdges(s, e);
    InsideRStrip(base[..i], e, j);
    ContainsIntro(x, e, j);
    TrimmedPrefix(base, i);
    FirstInPrefix(x, base[|x|..], e);
  }

  /** Patching again where an end marker stands before the section: what follows that marker is repeated. */
  lemma AgainEndFirst(x: string, y: string, s: string, e: string, body: string, section: string) returns (z: string)
    requires Delimiters(s, e) && Contains(x, e) && !Contains(x, s) && Trimmed(x)
    ensures Splice(x + "\n\n" + Wrap(s, body, e) + ("\n" + y), s, e, section) == x + "\n\n" + section + ("\n" + z)
    ensures |z| > |y| + 2
  {
    hide Splice, RStrip, LStrip, Contains, IndexOf, Wrap, Delimiters;
    var rest := "\n\n" + Wrap(s, body, e) + ("\n" + y);
    var text := x + "\n\n" + Wrap(s, body, e) + ("\n" + y);
    assert text == x + rest;
    WrapEdges(s, body, e);
    AppendedStart(x, s, e, body, "\n" + y);
    Seams(x, "\n\n");
    FirstInPrefix(x, rest, e);
    var c := IndexOf(x, e) + |e|;
    RestKept(x, rest, c);
    z := LStrip(text[c..]);
    SplicePieces(text, s, e, section, x, z);
  }

  lemma TwiceEndFirst(base: string, s: string, e: string, body: string, section: string) returns (z: string)
    requires Delimiters(s, e)
    requires Contains(base, s) && Contains(base, e) && IndexOf(base, e) < IndexOf(base, s)
    ensures Splice(Splice(base, s, e, Wrap(s, body, e)), s, e, section)
         == RStrip(base[..IndexOf(base, s)]) + "\n\n" + section + ("\n" + z)
    ensures |z| > |base| - IndexOf(base, s) + 2
  {
    hide Splice, RStrip, LStrip, Contains, IndexOf, Wrap, Delimiters;
    var i, c := IndexOf(base, s), IndexOf(base, e) + |e|;
    DelimiterEdges(s, e);
    OncePatched(base, s, e, body);
    WrapEdges(s, body, e);
    EndInside(base, s, e);
    KeepsStart(base, s, i, c);
    AbsentBefore(base, s, i);
    RStripShape(base[..i]);
    z := AgainEndFirst(RStrip(base[..i]), LStrip(base[c..]), s, e, body, section);
  }

  lemma RestKept(x: string, rest: string, c: nat)
    requires c <= |x| && |rest| > 2 && rest[2] == '<'
    ensures |LStrip((x + rest)[c..])| >= |rest| - 2
  {
    KeepsNonSpace((x + rest)[c..], |x| + 2 - c);
  }

  lemma WrapEdges(s: string, body: string, e: string)
    requires Delimiters(s, e)
    ensures s != "" && s[0] == '<' && |Wrap(s, body, e)| > 4 && Wrap(s, body, e)[0] == '<'
  {
  }

  lemma KeepsStart(base: string, s: string, i: nat, c: nat)
    requires s != "" && s[0] == '<' && OccursAt(base, s, i) && c <= i
    ensures |LStrip(base[c..])| >= |base| - i
  {
    assert base[i] == base[i..i + |s|][0] == '<';
    KeepsNonSpace(base[c..], i - c);
  }

  /** End marker first: text is repeated. */
  lemma StrayPairEndFirst(base: string, s: string, e: string, body: string, body': string)
    requires Delimiters(s, e)
    requires Contains(base, s) && Contains(base, e) && IndexOf(base, e) < IndexOf(base, s)
    ensures Splice(Splice(base, s, e, Wrap(s, body, e)), s, e, Wrap(s, body', e))
         != RStrip(base) + "\n\n" + Wrap(s, body', e) + "\n"
  {
    hide Splice, RStrip, LStrip, Contains, IndexOf, Wrap, Delimiters;
    DelimiterEdges(s, e);
    var i := IndexOf(base, s);
    var z := TwiceEndFirst(base, s, e, body, Wrap(s, body', e));
    AbsentBefore(base, s, i);
    StartElsewhere(base, RStrip(base[..i]), s, e, body', z, i);
  }

  lemma StartElsewhere(base: string, x: string, s: string, e: string, body: string, z: string, i: nat)
    requires Delimiters(s, e) && !Contains(x, s) && Contains(base, s) && IndexOf(base, s) == i
    requires |z| > |base| - i + 2
    ensures x + "\n\n" + Wrap(s, body, e) + ("\n" + z) != RStrip(base) + "\n\n" + Wrap(s, body, e) + "\n"
  {
    hide RStrip, Contains, IndexOf;
    var r, section := RStrip(base), Wrap(s, body, e);
    RStripShape(base);
    AppendedStart(x, s, e, body, "\n" + z);
    InsideRStrip(base, s, i);
    ContainsIntro(r, s, i);
    FirstInPrefix(r, base[|r|..], s);
    assert base == r + base[|r|..];
    FirstInPrefix(r, "\n\n" + section + "\n", s);
    assert r + "\n\n" + section + "\n" == r + ("\n\n" + section + "\n");
  }

  lemma MarkersDelimit(k: Kind)
    ensures Delimiters(Start(k).Text(), End(k).Text())
  {
    MarkerShape(Start(k));
    MarkerShape(End(k));
    MarkersApart(Start(k), End(k));
  }

  /** Exact condition, for one writer and any report: its second patch leaves the trimmed original
      followed by its section if and only if the original held neither of its two markers. */
  lemma SecondPatchExact(base: string, p: Payload, q: Payload)
    requires p.Kind() == q.Kind() && Clean(p) && Clean(q)
    ensures PatchText(PatchText(base, p), q) == RStrip(base) + "\n\n" + Section(q) + "\n"
        <==> !Contains(base, Start(p.Kind()).Text()) && !Contains(base, End(p.Kind()).Text())
  {
    hide Splice, RStrip, LStrip, Contains, IndexOf, Stem, Body, Clean, Delimiters, Wrap, Section;
    var s, e := Start(p.Kind()).Text(), End(p.Kind()).Text();
    MarkersDelimit(p.Kind());
    BodyFree(p, End(p.Kind()));
    SectionEdges(q);
    SectionIsWrap(p);
    SectionIsWrap(q);
    if Contains(base, s) && Contains(base, e) {
      if IndexOf(base, s) <= IndexOf(base, e) {
        StrayPairStartFirst(base, s, e, Body(p), Section(q));
      } else {
        StrayPairEndFirst(base, s, e, Body(p), Body(q));
      }
    } else {
      AppendsWithoutPair(base, s, e, Section(p));
      if Contains(base, s) {
        StrayStart(base, s, e, Body(p), Section(q));
      } else if Contains(base, e) {
        StrayEnd(base, s, e, Body(p), Section(q));
      } else {
        AbsentFromRStrip(base, s);
        AbsentFromRStrip(base, e);
        RStripShape(base);
        RefreshOnly(RStrip(base), p, q);
      }
    }
  }

  lemma SectionIsWrap(p: Payload)
    ensures Section(p) == Wrap(Start(p.Kind()).Text(), Body(p), End(p.Kind()).Text())
  {
  }

  lemma AppendsWithoutPair(base: string, s: string, e: string, section: string)
    requires !Contains(base, s) || !Contains(base, e)
    ensures Splice(base, s, e, section) == RStrip(base) + "\n\n" + section + "\n"
  {
  }

  /** The smallest failing report: nothing but the writer's own start marker. */
  lemma LoneMarker(p: Payload, q: Payload)
    requires p.Kind() == q.Kind() && Clean(p) && Clean(q)
    ensures var base := Start(p.Kind()).Text();
      PatchText(PatchText(base, p), q) != RStrip(base) + "\n\n" + Section(q) + "\n"
  {
    hide Splice, RStrip, PatchText, Section, Clean, Marker.Text, Contains;
    var base := Start(p.Kind()).Text();
    MarkersApart(Start(p.Kind()), Start(p.Kind()));
    SecondPatchExact(base, p, q);
  }

  // ---------------------------------------------------------------- patches as changes of a text

  /** The text after some patches of a text without carriage returns. */
  function PatchTexts(text: string, patches: seq<Payload>): string {
    if patches == [] then text else PatchText(PatchTexts(text, patches[..|patches| - 1]), patches[|patches| - 1])
  }

  ghost predicate OneWriter(patches: seq<Payload>, k: Kind) {
    forall p <- patches :: p.Kind() == k && Clean(p)
  }

  lemma {:induction false} PatchTextsHead(text: string, p: Payload, patches: seq<Payload>)
    ensures PatchTexts(text, [p] + patches) == PatchTexts(PatchText(text, p), patches)
  {
    hide PatchText;
    var all := [p] + patches;
    if patches == [] {
      assert all[..0] == [] && all[0] == p;
    } else {
      assert all[..|all| - 1] == [p] + patches[..|patches| - 1];
      PatchTextsHead(text, p, patches[..|patches| - 1]);
    }
  }

  lemma PatchLines(text: string, p: Payload)
    requires '\r' !in text && Clean(p)
    ensures '\r' !in PatchText(text, p)
  {
    hide Section, RStrip, LStrip, Contains, IndexOf, Clean;
    SectionLines(p);
    var s, e := Start(p.Kind()).Text(), End(p.Kind()).Text();
    if Contains(text, s) && Contains(text, e) {
      RStripShape(text[..IndexOf(text, s)]);
      LStripShape(text[IndexOf(text, e) + |e|..]);
    } else {
      RStripShape(text);
    }
  }

  /** On files as on texts: reading a patched report back does not change it. */
  lemma {:induction false} FilesAsTexts(raw: string, patches: seq<Payload>)
    requires patches != [] && forall p <- patches :: Clean(p)
    ensures PatchAll(Content(raw), patches) == Content(PatchTexts(ReadText(raw), patches))
    ensures '\r' !in PatchTexts(ReadText(raw), patches)
  {
    hide PatchText, Clean;
    var n := |patches| - 1;
    ReadTextLines(raw);
    assert patches[n] in patches;
    if n == 0 {
      assert PatchAll(Content(raw), []) == Content(raw);
      assert patches[..0] == [];
      PatchLines(ReadText(raw), patches[0]);
    } else {
      FilesAsTexts(raw, patches[..n]);
      ReadTextLines(PatchTexts(ReadText(raw), patches[..n]));
      PatchLines(PatchTexts(ReadText(raw), patches[..n]), patches[n]);
    }
  }

  lemma {:induction false} TimesOne(patches: seq<Payload>, k: Kind)
    requires OneWriter(patches, k)
    ensures Times(patches, k) == |patches| && Times(patches, Other(k)) == 0
  {
    hide Clean;
    if patches != [] {
      TimesOne(patches[..|patches| - 1], k);
      assert patches[|patches| - 1] in patches;
    }
  }

  lemma ExpectedOne(base: string, patches: seq<Payload>, k: Kind)
    requires patches != [] && OneWriter(patches, k)
    ensures Expected(base, patches) == RStrip(base) + "\n\n" + Section(patches[|patches| - 1]) + "\n"
  {
    hide Section, Clean, RStrip;
    assert patches[0] in patches && patches[|patches| - 1] in patches;
  }
}
