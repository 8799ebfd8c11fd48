/** The word of markers a text holds, and that patching the text patches the word. */
module ReportMarks {
  import opened Text
  import opened ReportSplice
  import opened ReportSpliceExact
  import opened ReportWords
  import opened ReportWordCases

  /** The marker a text begins with, if it begins with one. */
  ghost function MarkAt(t: string): Word {
    if exists m: Marker :: m.Text() <= t then
      var m: Marker :| m.Text() <= t;
      [m]
    else []
  }

  /** The markers of a text, in their order. */
  ghost function Marks(t: string): Word {
    if t == "" then [] else MarkAt(t) + Marks(t[1..])
  }

  lemma MarkAtIs(t: string, m: Marker)
    requires m.Text() <= t
    ensures MarkAt(t) == [m]
  {
    hide Marker.Text;
    var n: Marker :| n.Text() <= t && MarkAt(t) == [n];
    if |m.Text()| <= |n.Text()| { PrefixMarker(n, m); } else { PrefixMarker(m, n); }
  }

  lemma PrefixMarker(m: Marker, n: Marker)
    requires n.Text() <= m.Text()
    ensures m == n
  {
    hide Marker.Text;
    assert OccursAt(m.Text(), n.Text(), 0);
    MarkersApart(m, n);
  }

  // ---------------------------------------------------------------- seams

  /** No marker reaches from one text into the next. */
  ghost predicate Uncut(a: string, b: string) {
    forall m: Marker, i :: 0 <= i < |a| < i + |m.Text()| ==> !OccursAt(a + b, m.Text(), i)
  }

  lemma {:induction false} MarksConcat(a: string, b: string)
    requires Uncut(a, b)
    ensures Marks(a + b) == Marks(a) + Marks(b)
    decreases |a|
  {
    hide Marker.Text, MarkAt;
    if a == "" {
      assert a + b == b;
    } else {
      assert (a + b)[1..] == a[1..] + b;
      UncutTail(a, b);
      MarksConcat(a[1..], b);
      SameMark(a, b);
    }
  }

  lemma UncutTail(a: string, b: string)
    requires Uncut(a, b) && a != ""
    ensures Uncut(a[1..], b)
  {
    hide Marker.Text;
    forall m: Marker, i | 0 <= i < |a[1..]| < i + |m.Text()| ensures !OccursAt(a[1..] + b, m.Text(), i) {
      assert !OccursAt(a + b, m.Text(), i + 1);
      assert (a[1..] + b)[i..] == (a + b)[i + 1..];
      OccursHere(a[1..] + b, m.Text(), i);
      OccursHere(a + b, m.Text(), i + 1);
    }
  }

  lemma OccursHere(t: string, needle: string, i: nat)
    requires i <= |t|
    ensures OccursAt(t, needle, i) <==> needle <= t[i..]
  {
    if i + |needle| <= |t| {
      assert t[i..][..|needle|] == t[i..i + |needle|];
    }
  }

  lemma SameMark(a: string, b: string)
    requires Uncut(a, b) && a != ""
    ensures MarkAt(a + b) == MarkAt(a)
  {
    hide Marker.Text;
    forall m: Marker ensures m.Text() <= a + b <==> m.Text() <= a {
      OccursHere(a + b, m.Text(), 0);
      assert (a + b)[0..] == a + b;
      MarkerShape(m);
    }
    if m: Marker :| m.Text() <= a {
      MarkAtIs(a, m);
      MarkAtIs(a + b, m);
    }
  }

  lemma LetterAt(t: string, m: Marker, i: nat, j: nat)
    requires OccursAt(t, m.Text(), i) && j < |m.Text()|
    ensures i + j < |t| && t[i + j] == m.Text()[j]
  {
    hide Marker.Text;
    assert t[i..i + |m.Text()|][j] == t[i + j];
  }

  /** A marker holds no line break, and no '<' but its first character. */
  lemma UncutBefore(a: string, b: string)
    requires b == "" || b[0] == '\n' || b[0] == '<'
    ensures Uncut(a, b)
  {
    hide Marker.Text;
    forall m: Marker, i | 0 <= i < |a| < i + |m.Text()| ensures !OccursAt(a + b, m.Text(), i) {
      MarkerShape(m);
      assert forall j :: 1 <= j < |m.Text()| ==> m.Text()[j] == m.Text()[1..][j - 1];
      if OccursAt(a + b, m.Text(), i) {
        LetterAt(a + b, m, i, |a| - i);
      }
    }
  }

  /** It ends with '>'. */
  lemma UncutSpace(a: string, b: string)
    requires AllSpace(b)
    ensures Uncut(a, b)
  {
    hide Marker.Text;
    forall m: Marker, i | 0 <= i < |a| < i + |m.Text()| ensures !OccursAt(a + b, m.Text(), i) {
      MarkerShape(m);
      if OccursAt(a + b, m.Text(), i) {
        LetterAt(a + b, m, i, |m.Text()| - 1);
      }
    }
  }

  /** It starts with '<'. */
  lemma {:induction false} QuietMarks(a: string, b: string)
    requires '<' !in a
    ensures Marks(a + b) == Marks(b)
  {
    hide Marker.Text, MarkAt;
    if a == "" {
      assert a + b == b;
    } else {
      assert (a + b)[1..] == a[1..] + b && (a + b)[0] == a[0];
      NoMarkAt(a + b);
      QuietMarks(a[1..], b);
    }
  }

  lemma NoMarkAt(t: string)
    requires t != "" && t[0] != '<'
    ensures MarkAt(t) == []
  {
    hide Marker.Text;
    forall m: Marker ensures !(m.Text() <= t) { MarkerShape(m); }
  }

  lemma MarkerMarks(m: Marker, b: string)
    ensures Marks(m.Text() + b) == [m] + Marks(b)
  {
    hide Marker.Text, MarkAt;
    MarkerShape(m);
    MarkAtIs(m.Text() + b, m);
    assert (m.Text() + b)[1..] == m.Text()[1..] + b;
    QuietMarks(m.Text()[1..], b);
  }

  // ---------------------------------------------------------------- texts and words

  lemma {:induction false} MarksContain(t: string, m: Marker)
    ensures Contains(t, m.Text()) <==> m in Marks(t)
  {
    hide Marker.Text, MarkAt;
    MarkerShape(m);
    if t != "" {
      MarksContain(t[1..], m);
      ContainsTail(t, m.Text());
      if m.Text() <= t { MarkAtIs(t, m); }
      MarkAtOnly(t, m);
    }
  }

  lemma MarkAtOnly(t: string, m: Marker)
    ensures m in MarkAt(t) ==> m.Text() <= t
  {
    hide Marker.Text;
  }

  lemma ContainsTail(t: string, needle: string)
    requires t != ""
    ensures Contains(t, needle) <==> needle <= t || Contains(t[1..], needle)
  {
    OccursHere(t, needle, 0);
    assert t[0..] == t;
    forall i | 0 <= i < |t| ensures OccursAt(t, needle, i + 1) <==> OccursAt(t[1..], needle, i) {
      OccursHere(t, needle, i + 1);
      OccursHere(t[1..], needle, i);
      assert t[1..][i..] == t[i + 1..];
    }
    if needle <= t { assert OccursAt(t, needle, 0); }
    if i :| 0 <= i <= |t[1..]| && OccursAt(t[1..], needle, i) { assert OccursAt(t, needle, i + 1); }
    if i :| 0 <= i <= |t| && OccursAt(t, needle, i) {
      if i > 0 { assert OccursAt(t[1..], needle, i - 1); }
    }
  }

  lemma StrippedMarks(t: string)
    ensures Marks(RStrip(t)) == Marks(t) && Marks(LStrip(t)) == Marks(t)
  {
    hide Marks, RStrip, LStrip;
    var r, l := RStrip(t), LStrip(t);
    RStripShape(t);
    LStripShape(t);
    assert t == r + t[|r|..] && t == t[..|t| - |l|] + l;
    UncutSpace(r, t[|r|..]);
    MarksConcat(r, t[|r|..]);
    SpaceMarks(t[|r|..]);
    SpaceQuiet(t[..|t| - |l|]);
    QuietMarks(t[..|t| - |l|], l);
  }

  lemma SpaceQuiet(b: string)
    requires AllSpace(b)
    ensures '<' !in b
  {
  }

  lemma SpaceMarks(b: string)
    requires AllSpace(b)
    ensures Marks(b) == []
  {
    SpaceQuiet(b);
    QuietMarks(b, "");
    assert b + "" == b;
  }

  /** The first occurrence of a marker splits the word at its first letter. */
  lemma MarksAround(t: string, m: Marker)
    requires Contains(t, m.Text())
    ensures var i := IndexOf(t, m.Text());
      && Marks(t) == Marks(t[..i]) + [m] + Marks(t[i + |m.Text()|..])
      && m in Marks(t) && First(Marks(t), m) == |Marks(t[..i])|
  {
    hide Marker.Text, Marks, IndexOf, First;
    var i, s := IndexOf(t, m.Text()), m.Text();
    var a, b := t[..i], t[i + |s|..];
    MarkerShape(m);
    assert t == a + (s + b);
    UncutBefore(a, s + b);
    MarksConcat(a, s + b);
    MarkerMarks(m, b);
    MarksContain(a, m);
    forall j | 0 <= j <= |a| && OccursAt(a, s, j) ensures OccursAt(t, s, j) { InPrefix(a, s + b, s, j); }
    assert m !in Marks(a);
    assert Marks(t) == Marks(a) + ([m] + Marks(b));
    FirstBack(Marks(a), [m] + Marks(b), m);
    FirstIs([m] + Marks(b), m, 0);
  }

  lemma Assembled(x: string, section: string, y: string)
    ensures Marks(x + "\n\n" + section + "\n" + y) == Marks(x) + Marks(section) + Marks(y)
  {
    hide Marks;
    var tail := section + ("\n" + y);
    UncutBefore(x, "\n\n" + tail);
    MarksConcat(x, "\n\n" + tail);
    QuietMarks("\n\n", tail);
    UncutBefore(section, "\n" + y);
    MarksConcat(section, "\n" + y);
    QuietMarks("\n", y);
    assert x + "\n\n" + section + "\n" + y == x + ("\n\n" + tail);
  }

  lemma SectionMarks(p: Payload)
    requires Clean(p)
    ensures Marks(Section(p)) == Pair(p.Kind())
  {
    hide Marker.Text, Marks, Body, Clean;
    var s, e, body := Start(p.Kind()), End(p.Kind()), Body(p);
    var tail := "\n" + e.Text();
    assert Section(p) == s.Text() + ("\n" + (body + tail));
    MarkerMarks(s, "\n" + (body + tail));
    QuietMarks("\n", body + tail);
    UncutBefore(body, tail);
    MarksConcat(body, tail);
    BodyMarks(p);
    QuietMarks("\n", e.Text());
    MarkerMarks(e, "");
    assert e.Text() + "" == e.Text();
    assert Marks("") == [] by { NoMarks(); }
  }

  lemma NoMarks()
    ensures Marks("") == []
  {
  }

  lemma Head(w: Word) returns (m: Marker)
    requires w != []
    ensures m in w
  {
    m := w[0];
  }

  lemma BodyMarks(p: Payload)
    requires Clean(p)
    ensures Marks(Body(p)) == []
  {
    hide Marker.Text, Marks, Body, Clean;
    var w := Marks(Body(p));
    if w != [] {
      var m := Head(w);
      BodyFree(p, m);
      MarksContain(Body(p), m);
    }
  }

  lemma CutWord(w: Word, a: Word, m: Marker, b: Word)
    requires w == a + [m] + b && m in w && First(w, m) == |a|
    ensures w[..First(w, m)] == a && w[First(w, m) + 1..] == b
  {
    hide First;
  }

  lemma MarksCut(t: string, m: Marker)
    requires Contains(t, m.Text())
    ensures var i, w := IndexOf(t, m.Text()), Marks(t);
      m in w && w[..First(w, m)] == Marks(t[..i]) && w[First(w, m) + 1..] == Marks(t[i + |m.Text()|..])
  {
    hide Marker.Text, Marks, IndexOf, First, Contains;
    var i := IndexOf(t, m.Text());
    MarksAround(t, m);
    CutWord(Marks(t), Marks(t[..i]), m, Marks(t[i + |m.Text()|..]));
  }

  lemma SplicedMarks(t: string, s: Marker, e: Marker, section: string)
    requires Contains(t, s.Text()) && Contains(t, e.Text())
    ensures s in Marks(t) && e in Marks(t)
    ensures Marks(Splice(t, s.Text(), e.Text(), section))
      == Marks(t)[..First(Marks(t), s)] + Marks(section) + Marks(t)[First(Marks(t), e) + 1..]
  {
    hide Marker.Text, Marks, RStrip, LStrip, IndexOf, First, Contains;
    var i, c := IndexOf(t, s.Text()), IndexOf(t, e.Text()) + |e.Text()|;
    MarksCut(t, s);
    MarksCut(t, e);
    StrippedMarks(t[..i]);
    StrippedMarks(t[c..]);
    Assembled(RStrip(t[..i]), section, LStrip(t[c..]));
  }

  lemma AppendedMarks(t: string, section: string)
    ensures Marks(RStrip(t) + "\n\n" + section + "\n") == Marks(t) + Marks(section)
  {
    hide Marks, RStrip;
    StrippedMarks(t);
    Assembled(RStrip(t), section, "");
    assert RStrip(t) + "\n\n" + section + "\n" + "" == RStrip(t) + "\n\n" + section + "\n";
    assert Marks("") == [] by { NoMarks(); }
  }

  /** Patching the text patches the word. */
  lemma PatchMarks(t: string, p: Payload)
    requires Clean(p)
    ensures Marks(PatchText(t, p)) == Patch(Marks(t), p.Kind())
  {
    hide Marker.Text, Marks, Section, Clean, RStrip, LStrip, IndexOf, First, Contains, Splice;
    var s, e := Start(p.Kind()), End(p.Kind());
    MarksContain(t, s);
    MarksContain(t, e);
    SectionMarks(p);
    if Both(Marks(t), p.Kind()) {
      SplicedMarks(t, s, e, Section(p));
    } else {
      AppendedMarks(t, Section(p));
      SpliceAppends(t, s.Text(), e.Text(), Section(p));
    }
  }

  lemma SpliceAppends(t: string, s: string, e: string, section: string)
    requires !Contains(t, s) || !Contains(t, e)
    ensures Splice(t, s, e, section) == RStrip(t) + "\n\n" + section + "\n"
  {
    hide Contains, RStrip;
  }

  lemma {:induction false} PatchedMarks(t: string, patches: seq<Payload>)
    requires forall p <- patches :: Clean(p)
    ensures Marks(PatchTexts(t, patches)) == After(Marks(t), patches)
  {
    hide Marks, PatchText, Patch, Clean;
    if patches != [] {
      var n := |patches| - 1;
      assert patches[n] in patches;
      PatchedMarks(t, patches[..n]);
      PatchMarks(PatchTexts(t, patches[..n]), patches[n]);
    }
  }

  /** The expected report goes on with one section a writer. */
  lemma ExpectedMarks(base: string, patches: seq<Payload>)
    requires patches != [] && forall p <- patches :: Clean(p)
    ensures Marks(Expected(base, patches)) == Marks(base) + Sections(patches)
  {
    hide Marks, RStrip, Section, Clean;
    var first := patches[0].Kind();
    assert patches[0] in patches;
    var r, s := RStrip(base), Section(Latest(patches, first));
    StrippedMarks(base);
    SectionMarks(Latest(patches, first));
    assert Marks("") == [] by { NoMarks(); }
    if Has(patches, Other(first)) {
      var gap := if patches[|patches| - 1].Kind() == first then "\n" else "\n\n";
      var s2 := Section(Latest(patches, Other(first)));
      SectionMarks(Latest(patches, Other(first)));
      TwoAssembled(r, s, gap, s2);
    } else {
      Assembled(r, s, "");
      assert r + "\n\n" + s + "\n" + "" == r + "\n\n" + s + "\n";
    }
  }

  lemma TwoAssembled(r: string, s: string, gap: string, s2: string)
    requires gap == "\n" || gap == "\n\n"
    ensures Marks(r + "\n\n" + s + gap + s2 + "\n") == Marks(r) + Marks(s) + Marks(s2)
  {
    hide Marks;
    var rest := gap[1..] + (s2 + "\n");
    Assembled(r, s, rest);
    QuietMarks(gap[1..], s2 + "\n");
    UncutBefore(s2, "\n");
    MarksConcat(s2, "\n");
    assert AllSpace("\n");
    SpaceMarks("\n");
    assert "\n" + rest == gap + (s2 + "\n");
    assert r + "\n\n" + s + "\n" + rest == r + "\n\n" + s + gap + s2 + "\n";
  }

  lemma ToleratesWord(base: string, times: nat, k: Kind)
    ensures Tolerates(base, times, k) <==> Tolerable(Marks(base), times, k)
  {
    hide Marks, Marker.Text, Contains;
    MarksContain(base, Start(k));
    MarksContain(base, End(k));
  }
}
