/** The exact reports on which interleavings of both writers leave what they promise. The words of markers
    leave a few cases open; there a splice repeats text behind a single line break, where the expected report
    has two. */
module ReportInterleaving {
  import opened Text
  import opened ReportSplice
  import opened ReportSpliceExact
  import opened ReportWords
  import opened ReportWordCases
  import opened ReportMarks

  // ---------------------------------------------------------------- a text that repeats itself

  lemma Cancel(u: string, y: string, v: string)
    requires u + y == y + v && |y| <= |u|
    ensures u == y + u[|y|..] && v == u[|y|..] + y
  {
    assert (u + y)[..|y|] == y && (y + v)[|y|..] == v;
    assert u[..|y|] == y;
    assert (u + y)[|y|..] == u[|y|..] + y;
  }

  lemma SplitAt(a: string, b: string, c: string, d: string)
    requires a + b == c + d && |a| == |c|
    ensures a == c && b == d
  {
    assert (a + b)[..|a|] == a && (c + d)[..|c|] == c;
    assert (a + b)[|a|..] == b && (c + d)[|c|..] == d;
  }

  lemma GapClash(section: string, l: string, g: string, h: string)
    requires (l != "" ==> l[0] != '\n') && "\n\n" <= g + h
    ensures section + "\n" + l != section + g + h
  {
    assert section + "\n" + l == section + ("\n" + l) && section + g + h == section + (g + h);
    if section + "\n" + l == section + g + h {
      SplitAt(section, "\n" + l, section, g + h);
    }
    assert ("\n" + l)[1..] == l;
  }

  /** What a splice that doubles text leaves, from the writer's first start marker on, is not what was there
      with the section added: a line break and no more follows the section there. */
  lemma {:induction false} NoOverlap(section: string, s: string, l: string, y: string, h: string, g: string)
    requires s != "" && s <= section && s <= y && '\n' !in s
    requires l != "" ==> l[0] != '\n'
    requires forall i :: OccursAt(h + section + g, s, i) ==> i == |h|
    requires h != "" && h[0] == '\n' && "\n\n" <= g + h
    ensures section + "\n" + l + y != y + (h + section + g)
    decreases |y|
  {
    hide OccursAt;
    var u, v := section + "\n" + l, h + section + g;
    if u + y == y + v {
      if |y| <= |u| {
        Cancel(u, y, v);
        ShortOverlap(section, s, l, y, h, g, u[|y|..]);
      } else {
        var z := y[|u|..];
        LongOverlap(u, y, v, s);
        NoOverlap(section, s, l, z, h, g);
      }
    }
  }

  lemma ShortOverlap(section: string, s: string, l: string, y: string, h: string, g: string, z: string)
    requires s <= y && z + y == h + section + g
    requires forall i :: OccursAt(h + section + g, s, i) ==> i == |h|
    requires (l != "" ==> l[0] != '\n') && "\n\n" <= g + h
    ensures y + z != section + "\n" + l
  {
    assert OccursAt(z + y, s, |z|) by { assert (z + y)[|z|..|z| + |s|] == y[..|s|]; }
    assert h + section + g == h + (section + g);
    SplitAt(z, y, h, section + g);
    GapClash(section, l, g, h);
  }

  lemma ShortPrefix(u: string, z: string, s: string, v: string)
    requires s <= u && |z| < |s| && '\n' !in s && v != "" && v[0] == '\n'
    ensures u + z != z + v
  {
    assert (u + z)[|z|] == s[|z|] && (z + v)[|z|] == '\n';
  }

  lemma LongOverlap(u: string, y: string, v: string, s: string)
    requires u + y == y + v && |y| > |u| && s <= u && '\n' !in s && v != "" && v[0] == '\n'
    ensures var z := y[|u|..]; y == u + z && u + z == z + v && s <= z
  {
    var z := y[|u|..];
    if |z| < |s| { ShortPrefix(u, z, s, v); }
    assert (u + y)[..|u|] == u && (y + v)[..|u|] == y[..|u|];
    assert y == u + z;
    assert (u + y)[|u|..] == y && (y + v)[|u|..] == z + v;
    assert |s| <= |z| && (u + z)[..|s|] == s;
  }

  // ---------------------------------------------------------------- from a writer's first start marker on

  /** The text from the first occurrence of a marker on. */
  function From(t: string, m: Marker): string
    requires Contains(t, m.Text())
  {
    t[IndexOf(t, m.Text())..]
  }

  lemma FromConcat(x: string, f: string, m: Marker)
    requires !Contains(x, m.Text()) && m.Text() <= f
    ensures Contains(x + f, m.Text()) && From(x + f, m) == f
  {
    hide Marker.Text, IndexOf;
    var t, s := x + f, m.Text();
    MarkerShape(m);
    UncutBefore(x, f);
    assert t[|x|..] == f;
    OccursHere(t, s, |x|);
    ContainsIntro(t, s, |x|);
    forall j: nat | j < |x| ensures !OccursAt(t, s, j) {
      if j + |s| <= |x| { InPrefix(x, f, s, j); }
    }
    assert IndexOf(t, s) == |x|;
  }

  lemma FromAppend(a: string, b: string, m: Marker)
    requires Contains(a, m.Text())
    ensures Contains(a + b, m.Text()) && From(a + b, m) == From(a, m) + b
  {
    hide Marker.Text, IndexOf, Contains;
    FirstInPrefix(a, b, m.Text());
  }

  lemma RStripConcat(a: string, b: string)
    requires b != "" && !IsSpace(b[0])
    ensures RStrip(a + b) == a + RStrip(b)
  {
    hide RStrip;
    var r := RStrip(b);
    RStripShape(b);
    InsideRStrip(b, [b[0]], 0);
    assert a + b == (a + r) + b[|r|..];
    RStripUnique(a + r, b[|r|..]);
  }

  lemma LStripConcat(a: string, b: string)
    requires b != "" && !IsSpace(b[0])
    ensures LStrip(a + b) == LStrip(a) + b
  {
    hide LStrip;
    var l := LStrip(a);
    LStripShape(a);
    assert a + b == a[..|a| - |l|] + (l + b);
    LStripUnique(a[..|a| - |l|], l + b);
  }

  lemma FromStarts(t: string, m: Marker)
    requires Contains(t, m.Text())
    ensures var f := From(t, m);
      m.Text() <= f && f != "" && !IsSpace(f[0]) && t == t[..IndexOf(t, m.Text())] + f
    ensures !Contains(t[..IndexOf(t, m.Text())], m.Text())
  {
    hide Marker.Text, IndexOf;
    MarkerShape(m);
    var i, s := IndexOf(t, m.Text()), m.Text();
    OccursHere(t, s, i);
    forall j | 0 <= j <= i && OccursAt(t[..i], s, j) ensures OccursAt(t, s, j) {
      assert t == t[..i] + t[i..];
      InPrefix(t[..i], t[i..], s, j);
    }
  }

  lemma FromTrimmed(t: string, m: Marker)
    requires Contains(t, m.Text())
    ensures Contains(RStrip(t), m.Text()) && From(RStrip(t), m) == RStrip(From(t, m))
    ensures m.Text() <= RStrip(From(t, m))
  {
    hide Marker.Text, IndexOf, Contains, From, RStrip;
    var x, f, s := t[..IndexOf(t, m.Text())], From(t, m), m.Text();
    MarkerShape(m);
    FromStarts(t, m);
    RStripConcat(x, f);
    assert f[0..] == f;
    OccursHere(f, s, 0);
    InsideRStrip(f, s, 0);
    OccursHere(RStrip(f), s, 0);
    assert RStrip(f)[0..] == RStrip(f);
    FromConcat(x, RStrip(f), m);
  }

  lemma Slice(t: string, lo: nat, hi: nat, j: nat, n: nat)
    requires lo <= hi <= |t| && j + n <= hi - lo
    ensures t[lo..hi][j..j + n] == t[lo + j..lo + j + n]
  {
    var a, b := t[lo..hi][j..j + n], t[lo + j..lo + j + n];
    assert forall k :: 0 <= k < n ==> a[k] == t[lo + j + k] == b[k];
  }

  lemma AbsentInSlice(t: string, m: Marker, lo: nat, hi: nat)
    requires Contains(t, m.Text()) && lo <= hi <= IndexOf(t, m.Text())
    ensures !Contains(t[lo..hi], m.Text())
  {
    hide Marker.Text, IndexOf;
    var s, part := m.Text(), t[lo..hi];
    MarkerShape(m);
    forall j | 0 <= j <= |part| - |s| ensures !OccursAt(part, s, j) {
      Slice(t, lo, hi, j, |s|);
      assert !OccursAt(t, s, lo + j);
    }
  }

  /** The order of first letters is that of first occurrences, and these do not overlap. */
  lemma FirstsInOrder(t: string, m: Marker, n: Marker)
    requires m in Marks(t) && n in Marks(t) && First(Marks(t), m) < First(Marks(t), n)
    ensures Contains(t, m.Text()) && Contains(t, n.Text())
    ensures IndexOf(t, m.Text()) + |m.Text()| <= IndexOf(t, n.Text())
  {
    hide Marker.Text, IndexOf, Marks, First, Contains;
    MarksContain(t, m);
    MarksContain(t, n);
    MarksAround(t, m);
    MarksAround(t, n);
    if IndexOf(t, n.Text()) < IndexOf(t, m.Text()) {
      EarlierFirst(t, n, m);
    } else {
      NotInside(t, m, n);
    }
  }

  lemma NotInside(t: string, m: Marker, n: Marker)
    requires m != n && Contains(t, m.Text()) && Contains(t, n.Text()) && IndexOf(t, m.Text()) <= IndexOf(t, n.Text())
    ensures IndexOf(t, m.Text()) + |m.Text()| <= IndexOf(t, n.Text())
  {
    hide Marker.Text, IndexOf, Contains;
    var i, j := IndexOf(t, m.Text()), IndexOf(t, n.Text());
    MarkerShape(m);
    MarkerShape(n);
    OccursHere(t, m.Text(), i);
    OccursHere(t, n.Text(), j);
    LetterAt(t, n, j, 0);
    forall k: nat | i < k < i + |m.Text()| ensures k < |t| && t[k] != '<' {
      LetterAt(t, m, i, k - i);
      assert m.Text()[1..][k - i - 1] == m.Text()[k - i];
    }
    if i == j {
      if |m.Text()| <= |n.Text()| { PrefixOf(m, n, t[i..]); } else { PrefixOf(n, m, t[i..]); }
    }
  }

  lemma PrefixOf(m: Marker, n: Marker, t: string)
    requires m.Text() <= t && n.Text() <= t && |m.Text()| <= |n.Text()|
    ensures m == n
  {
    hide Marker.Text;
    assert n.Text() == t[..|n.Text()|] && m.Text() == t[..|m.Text()|];
    PrefixMarker(n, m);
  }

  lemma EarlierFirst(t: string, m: Marker, n: Marker)
    requires Contains(t, m.Text()) && Contains(t, n.Text()) && IndexOf(t, m.Text()) < IndexOf(t, n.Text())
    ensures m in Marks(t) && n in Marks(t) && First(Marks(t), m) < First(Marks(t), n)
  {
    hide Marker.Text, IndexOf, Marks, First, Contains;
    var j := IndexOf(t, n.Text());
    var x := t[..j];
    NotInside(t, m, n);
    MarksAround(t, m);
    MarksAround(t, n);
    assert t == x + t[j..];
    InPrefix(x, t[j..], m.Text(), IndexOf(t, m.Text()));
    ContainsIntro(x, m.Text(), IndexOf(t, m.Text()));
    MarksContain(x, m);
    assert Marks(t) == Marks(x) + ([n] + Marks(t[j + |n.Text()|..]));
    FirstFront(Marks(x), [n] + Marks(t[j + |n.Text()|..]), m);
  }

  // ---------------------------------------------------------------- what patches do to it

  predicate NoSpaceFirst(l: string) {
    l != "" ==> !IsSpace(l[0])
  }

  /** A splice in terms of what stands before the first start marker and behind the first end marker. */
  lemma SplicedText(t: string, p: Payload)
    requires Both(Marks(t), p.Kind())
    ensures var s, e := Start(p.Kind()).Text(), End(p.Kind()).Text();
      && Contains(t, s) && Contains(t, e)
      && PatchText(t, p) == RStrip(t[..IndexOf(t, s)]) + "\n\n" + Section(p) + "\n" + LStrip(t[IndexOf(t, e) + |e|..])
  {
    hide Marker.Text, Marks, RStrip, LStrip, Section, Contains, IndexOf;
    MarksContain(t, Start(p.Kind()));
    MarksContain(t, End(p.Kind()));
  }

  /** Behind a cut the text up to a marker loses its leading whitespace, and the rest stays. */
  lemma CutTail(t: string, m: Marker, c: nat) returns (l: string)
    requires Contains(t, m.Text()) && c <= IndexOf(t, m.Text())
    ensures LStrip(t[c..]) == l + From(t, m) && NoSpaceFirst(l) && !Contains(l, m.Text())
  {
    hide Marker.Text, Marks, LStrip, Contains, IndexOf, From;
    var i := IndexOf(t, m.Text());
    FromStarts(t, m);
    FromHere(t, m);
    assert t[c..] == t[c..i] + t[i..];
    LStripConcat(t[c..i], From(t, m));
    l := LStrip(t[c..i]);
    LStripShape(t[c..i]);
    AbsentInSlice(t, m, c, i);
    StrippedMarks(t[c..i]);
    MarksContain(t[c..i], m);
    MarksContain(l, m);
  }

  lemma FromHere(t: string, m: Marker)
    requires Contains(t, m.Text())
    ensures From(t, m) == t[IndexOf(t, m.Text())..]
  {
  }

  lemma SectionStarts(p: Payload)
    ensures Start(p.Kind()).Text() <= Section(p)
  {
    hide Marker.Text, Body;
  }

  /** A doubling splice puts its section, a line break and some text in front of the tail. */
  lemma DoubledTail(t: string, p: Payload) returns (l: string)
    requires Ended(Marks(t), p.Kind()) && Start(p.Kind()) in Marks(t)
    ensures var m := Start(p.Kind());
      && Contains(t, m.Text()) && Contains(PatchText(t, p), m.Text())
      && From(PatchText(t, p), m) == Section(p) + "\n" + l + From(t, m) && NoSpaceFirst(l)
  {
    hide Marker.Text, Marks, RStrip, LStrip, Section, Contains, IndexOf, From, First, PatchText;
    var s, e := Start(p.Kind()), End(p.Kind());
    FirstsInOrder(t, e, s);
    SplicedText(t, p);
    var i, c := IndexOf(t, s.Text()), IndexOf(t, e.Text()) + |e.Text()|;
    l := CutTail(t, s, c);
    FromStarts(t, s);
    var x, f := RStrip(t[..i]) + "\n\n", Section(p) + "\n" + l + From(t, s);
    FrontFree(t[..i], s);
    SectionStarts(p);
    PrefixKept(s.Text(), Section(p), "\n" + l + From(t, s));
    assert Section(p) + ("\n" + l + From(t, s)) == f;
    FromConcat(x, f, s);
    assert PatchText(t, p) == x + f;
  }

  lemma PrefixKept(s: string, a: string, b: string)
    requires s <= a
    ensures s <= a + b
  {
  }

  lemma FrontFree(x: string, m: Marker)
    requires !Contains(x, m.Text())
    ensures !Contains(RStrip(x) + "\n\n", m.Text())
  {
    hide Marker.Text, Marks, RStrip, Contains;
    MarkerShape(m);
    AbsentFromRStrip(x, m.Text());
    NewlinesFree(RStrip(x), "\n\n", m.Text());
  }

  /** A splice of a section in front leaves the tail as it is. */
  lemma UntouchedTail(t: string, p: Payload)
    requires WholeInFront(Marks(t), p.Kind(), Other(p.Kind())) && Clean(p)
    ensures var m := Start(Other(p.Kind()));
      Contains(t, m.Text()) && Contains(PatchText(t, p), m.Text()) && From(PatchText(t, p), m) == From(t, m)
  {
    hide Marker.Text, Marks, RStrip, LStrip, Section, Contains, IndexOf, From, First, PatchText, Clean;
    var k := p.Kind();
    var s, e, m := Start(k), End(k), Start(Other(k));
    AdjacentFirst(Marks(t), k, First(Marks(t), s));
    assert First(Marks(t), e) != First(Marks(t), m);
    FirstsInOrder(t, s, m);
    FirstsInOrder(t, e, m);
    SplicedText(t, p);
    var i, c := IndexOf(t, s.Text()), IndexOf(t, e.Text()) + |e.Text()|;
    var l := CutTail(t, m, c);
    AbsentInSlice(t, m, 0, i);
    assert t[0..i] == t[..i];
    var r := RStrip(t[..i]);
    MarksContain(t[..i], m);
    StrippedMarks(t[..i]);
    MarksContain(l, m);
    SectionMarks(p);
    Assembled(r, Section(p), l);
    var x := r + "\n\n" + Section(p) + "\n" + l;
    MarksContain(x, m);
    FromStarts(t, m);
    FromConcat(x, From(t, m), m);
    assert PatchText(t, p) == x + From(t, m);
  }

  // ---------------------------------------------------------------- what is left does not fit either

  lemma InSuffix(a: string, b: string, t: string, i: int)
    requires i >= |a|
    ensures OccursAt(a + b, t, i) <==> OccursAt(b, t, i - |a|)
  {
    if i + |t| <= |a + b| {
      assert (a + b)[i..i + |t|] == b[i - |a|..i - |a| + |t|];
    }
  }

  lemma OnlyHere(h: string, m: Marker, rest: string)
    requires h != "" && h[|h| - 1] == '\n' && !Contains(h, m.Text()) && !Contains(rest, m.Text())
    ensures forall i :: OccursAt(h + m.Text() + rest, m.Text(), i) ==> i == |h|
  {
    hide Marker.Text, OccursAt;
    var s := m.Text();
    var v := h + s + rest;
    MarkerShape(m);
    FirstAfterLines(h, s, rest);
    forall i ensures OccursAt(v, s, i) ==> i <= |h| {
      if i >= |h + s| {
        InSuffix(h + s, rest, s, i);
        NotThere(rest, s, i - |h + s|);
      } else if i > |h| {
        InsideMarker(h, m, rest, i - |h|);
      }
    }
    forall i ensures OccursAt(v, s, i) ==> i >= |h| { NotNegative(v, s, i); }
  }

  lemma NotThere(t: string, needle: string, i: int)
    requires !Contains(t, needle)
    ensures !OccursAt(t, needle, i)
  {
  }

  lemma NotNegative(t: string, needle: string, i: int)
    ensures OccursAt(t, needle, i) ==> i >= 0
  {
  }

  lemma InsideMarker(h: string, m: Marker, rest: string, j: nat)
    requires 0 < j < |m.Text()|
    ensures !OccursAt(h + m.Text() + rest, m.Text(), |h| + j)
  {
    hide Marker.Text;
    var v := h + m.Text() + rest;
    MarkerShape(m);
    assert v[|h| + j] == m.Text()[j] == m.Text()[1..][j - 1];
    OccursHere(v, m.Text(), |h| + j);
    assert v[|h| + j..][0] == v[|h| + j];
  }

  lemma OnlyInSection(h: string, p: Payload, g: string)
    requires Clean(p) && h != "" && h[|h| - 1] == '\n' && (g == "" || g[0] == '\n')
    requires Start(p.Kind()) !in Marks(h) && Start(p.Kind()) !in Marks(g)
    ensures forall i :: OccursAt(h + Section(p) + g, Start(p.Kind()).Text(), i) ==> i == |h|
  {
    hide Marker.Text, Marks, Section, Contains, OccursAt, Clean;
    var m := Start(p.Kind());
    SectionStarts(p);
    var tail := Section(p)[|m.Text()|..];
    assert Section(p) + g == m.Text() + (tail + g);
    MarkerMarks(m, tail + g);
    UncutBefore(Section(p), g);
    MarksConcat(Section(p), g);
    SectionMarks(p);
    assert (Pair(p.Kind()) + Marks(g))[1..] == [End(p.Kind())] + Marks(g);
    assert ([m] + Marks(tail + g))[1..] == Marks(tail + g);
    MarksContain(tail + g, m);
    MarksContain(h, m);
    OnlyHere(h, m, tail + g);
    assert h + m.Text() + (tail + g) == h + Section(p) + g;
  }

  /** One doubling splice does not add the section to the trimmed text. */
  lemma OneDoubling(t: string, p: Payload)
    requires Clean(p) && Ended(Marks(t), p.Kind()) && Start(p.Kind()) in Marks(t)
    ensures RStrip(PatchText(t, p)) != RStrip(t) + "\n\n" + Section(p)
  {
    hide Marker.Text, Marks, RStrip, Section, Contains, IndexOf, From, First, PatchText, Clean, Ended;
    var m := Start(p.Kind());
    var l := DoubledTail(t, p);
    FromTrimmed(t, m);
    FromTrimmed(PatchText(t, p), m);
    FromStarts(t, m);
    RStripConcat(Section(p) + "\n" + l, From(t, m));
    var y := RStrip(From(t, m));
    FromAppend(RStrip(t), "\n\n" + Section(p), m);
    assert RStrip(t) + "\n\n" + Section(p) == RStrip(t) + ("\n\n" + Section(p));
    NoMarksIn("\n\n");
    OnlyInSection("\n\n", p, "");
    SectionStarts(p);
    MarkerShape(m);
    NoOverlap(Section(p), m.Text(), l, y, "\n\n", "");
    assert "\n\n" + Section(p) + "" == "\n\n" + Section(p);
  }

  lemma NoMarksIn(b: string)
    requires '<' !in b
    ensures Marks(b) == [] && Marks("") == []
  {
    hide Marker.Text, MarkAt;
    QuietMarks(b, "");
    assert b + "" == b;
  }

  lemma SectionsApart(p: Payload, q: Payload)
    requires Clean(p) && Clean(q) && p.Kind() != q.Kind()
    ensures Start(p.Kind()) !in Marks(Section(q)) && Start(p.Kind()) !in Marks("\n\n" + Section(q))
    ensures Start(p.Kind()) !in Marks("\n\n" + Section(q) + "\n")
    ensures Start(p.Kind()) !in Marks("\n\n" + Section(q) + "\n\n")
  {
    hide Marks, Section, Clean;
    SectionMarks(q);
    QuietMarks("\n\n", Section(q));
    forall gap | gap == "\n" || gap == "\n\n"
      ensures Marks("\n\n" + Section(q) + gap) == Marks("\n\n" + Section(q))
    {
      UncutBefore("\n\n" + Section(q), gap);
      MarksConcat("\n\n" + Section(q), gap);
      NoMarksIn(gap);
    }
  }

  lemma FirstDiffers(p: Payload, q: Payload, l: string, y: string)
    requires Clean(p) && Clean(q) && p.Kind() != q.Kind()
    requires Start(p.Kind()).Text() <= y && NoSpaceFirst(l)
    ensures Section(p) + "\n" + l + y != y + ("\n\n" + Section(p) + "\n\n" + Section(q))
  {
    hide Marker.Text, Marks, Section, Clean, OccursAt;
    var m := Start(p.Kind());
    NoMarksIn("\n\n");
    SectionsApart(p, q);
    OnlyInSection("\n\n", p, "\n\n" + Section(q));
    SectionStarts(p);
    MarkerShape(m);
    NoOverlap(Section(p), m.Text(), l, y, "\n\n", "\n\n" + Section(q));
    assert "\n\n" + Section(p) + ("\n\n" + Section(q)) == "\n\n" + Section(p) + "\n\n" + Section(q);
  }

  lemma SecondDiffers(p: Payload, q: Payload, gap: string, l: string, y: string)
    requires Clean(p) && Clean(q) && p.Kind() != q.Kind() && (gap == "\n" || gap == "\n\n")
    requires Start(p.Kind()).Text() <= y && NoSpaceFirst(l)
    ensures Section(p) + "\n" + l + y != y + ("\n\n" + Section(q) + gap + Section(p))
  {
    hide Marker.Text, Marks, Section, Clean, OccursAt;
    var m, h := Start(p.Kind()), "\n\n" + Section(q) + gap;
    NoMarksIn("");
    SectionsApart(p, q);
    OnlyInSection(h, p, "");
    SectionStarts(p);
    MarkerShape(m);
    NoOverlap(Section(p), m.Text(), l, y, h, "");
    assert h + Section(p) + "" == h + Section(p);
  }

  lemma WholeInFrontKept(w: Word, k: Kind)
    requires WholeInFront(w, Other(k), k) && Ended(w, k)
    ensures Patch(w, Other(k)) == w
    ensures WholeInFront(Patch(w, k), Other(k), k) && Ended(Patch(w, k), k)
  {
    hide First, Patch, Ended;
    var o, a, r := Other(k), First(w, Start(Other(k))), Patch(w, k);
    AdjacentFirst(w, o, a);
    AdjacentLeads(w, o, a);
    EndedPatch(w, k);
    PatchHas(w, k);
    OtherKeepsFront(w, o, a);
    SameFront(w, r, o, a);
    FirstIs(r, Start(o), a);
  }

  /** With a whole section in front, only the doubling splice changes the tail. */
  lemma {:induction false} TailRun(base: string, patches: seq<Payload>, k: Kind) returns (l: string)
    requires forall p <- patches :: Clean(p)
    requires WholeInFront(Marks(base), Other(k), k) && Ended(Marks(base), k) && Times(patches, k) <= 1
    ensures var t, m := PatchTexts(base, patches), Start(k);
      && WholeInFront(Marks(t), Other(k), k) && Ended(Marks(t), k) && NoSpaceFirst(l)
      && Contains(base, m.Text()) && Contains(t, m.Text())
      && From(t, m) == if Has(patches, k) then Section(Latest(patches, k)) + "\n" + l + From(base, m) else From(base, m)
    decreases |patches|
  {
    hide Marker.Text, Marks, Section, Contains, From, PatchText, Patch, Clean, WholeInFront, Ended, Has, Latest;
    MarksContain(base, Start(k));
    assert Start(k) in Marks(base) by { InFrontHas(Marks(base), k); }
    TimesHas(patches, k);
    l := "";
    if patches != [] {
      var front, p := patches[..|patches| - 1], patches[|patches| - 1];
      var t := PatchTexts(base, front);
      assert p in patches && front + [p] == patches;
      l := TailRun(base, front, k);
      TimesHas(front, k);
      LatestSnoc(front, p, k);
      PatchMarks(t, p);
      WholeInFrontKept(Marks(t), k);
      if p.Kind() == k {
        InFrontHas(Marks(t), k);
        l := DoubledTail(t, p);
      } else {
        UntouchedTail(t, p);
      }
    } else {
      assert !Has(patches, k);
    }
  }

  lemma InFrontHas(w: Word, k: Kind)
    requires WholeInFront(w, Other(k), k)
    ensures Start(k) in w
  {
  }

  // ---------------------------------------------------------------- the exact condition

  lemma {:induction false} TimesTotal(patches: seq<Payload>, k: Kind)
    ensures Times(patches, k) + Times(patches, Other(k)) == |patches|
  {
    if patches != [] {
      TimesTotal(patches[..|patches| - 1], k);
    }
  }

  /** A writer that patches first and only then is not the last one to patch, if the other one patches too. */
  lemma LastIsOther(patches: seq<Payload>, k: Kind)
    requires patches != [] && patches[0].Kind() == k && Times(patches, k) == 1 && Times(patches, Other(k)) > 0
    ensures patches[|patches| - 1].Kind() == Other(k)
  {
    TimesTotal(patches, k);
    var front := patches[..|patches| - 1];
    assert front[0] in front;
    TimesHas(front, k);
  }

  lemma TrimmedEnd(a: string, p: Payload)
    ensures RStrip(a + Section(p) + "\n") == a + Section(p)
  {
    hide Section, RStrip;
    SectionEdges(p);
    RStripUnique(a + Section(p), "\n");
  }

  lemma Regroup5(a: string, b: string, c: string, d: string, e: string)
    ensures a + b + c + d + e == a + b + (c + d + e)
  {
  }

  function Gap(patches: seq<Payload>): string
    requires patches != []
  {
    if patches[|patches| - 1].Kind() == patches[0].Kind() then "\n" else "\n\n"
  }

  /** The trimmed expected report of two writers. */
  lemma ExpectedTrimmed(base: string, patches: seq<Payload>)
    requires patches != [] && Has(patches, Readiness) && Has(patches, Probe)
    ensures var first := patches[0].Kind();
      RStrip(Expected(base, patches)) == RStrip(base) + "\n\n"
        + (Section(Latest(patches, first)) + Gap(patches) + Section(Latest(patches, Other(first))))
  {
    hide Section, RStrip, Latest, Has;
    var r, p, q := RStrip(base), Latest(patches, patches[0].Kind()), Latest(patches, Other(patches[0].Kind()));
    TrimmedEnd(r + "\n\n" + Section(p) + Gap(patches), q);
    Regroup5(r, "\n\n", Section(p), Gap(patches), Section(q));
  }

  lemma WholeInFrontCase(base: string, patches: seq<Payload>, k: Kind)
    requires patches != [] && forall p <- patches :: Clean(p)
    requires Times(patches, k) == 1 && Times(patches, Other(k)) > 0
    requires WholeInFront(Marks(base), Other(k), k) && Ended(Marks(base), k)
    ensures PatchTexts(base, patches) != Expected(base, patches)
  {
    hide Marker.Text, Marks, Section, Contains, From, PatchTexts, Patch, Clean, WholeInFront, Ended, Times, RStrip;
    hide Expected;
    TimesHas(patches, k);
    TimesHas(patches, Other(k));
    var p, q := Latest(patches, k), Latest(patches, Other(k));
    var t := PatchTexts(base, patches);
    var l := TailRun(base, patches, k);
    FromTrimmed(base, Start(k));
    ExpectedTrimmed(base, patches);
    if patches[0].Kind() == k {
      LastIsOther(patches, k);
      FirstDiffers(p, q, l, RStrip(From(base, Start(k))));
      TailsDiffer(base, t, Start(k), Section(p) + "\n" + l, Section(p), "\n\n", Section(q));
    } else {
      SecondDiffers(p, q, Gap(patches), l, RStrip(From(base, Start(k))));
      TailsDiffer(base, t, Start(k), Section(p) + "\n" + l, Section(q), Gap(patches), Section(p));
    }
  }

  lemma TailsDiffer(base: string, t: string, m: Marker, u: string, a: string, gap: string, b: string)
    requires Contains(base, m.Text()) && Contains(t, m.Text()) && From(t, m) == u + From(base, m)
    requires u + RStrip(From(base, m)) != RStrip(From(base, m)) + ("\n\n" + a + gap + b)
    ensures RStrip(t) != RStrip(base) + "\n\n" + (a + gap + b)
  {
    hide Marker.Text, Contains, From, RStrip;
    FromTrimmed(t, m);
    FromStarts(base, m);
    RStripConcat(u, From(base, m));
    TailOf(base, "\n\n" + a + gap + b, m);
    Regroup5(RStrip(base), "\n\n", a, gap, b);
    assert RStrip(base) + ("\n\n" + a + gap + b) == RStrip(base) + "\n\n" + a + gap + b;
  }

  lemma TailOf(base: string, more: string, m: Marker)
    requires Contains(base, m.Text())
    ensures Contains(RStrip(base) + more, m.Text())
    ensures From(RStrip(base) + more, m) == RStrip(From(base, m)) + more
  {
    hide Marker.Text, Contains, From, RStrip;
    FromTrimmed(base, m);
    FromAppend(RStrip(base), more, m);
  }

  /** Patches of a writer that tolerates the text, whatever stands there for the other one. */
  lemma Undisturbed(t: string, patches: seq<Payload>, k: Kind)
    requires '\r' !in t && patches != [] && OneWriter(patches, k) && Tolerates(t, |patches|, k)
    ensures PatchTexts(t, patches) == RStrip(t) + "\n\n" + Section(patches[|patches| - 1]) + "\n"
  {
    hide Section, PatchTexts, Clean, RStrip, Contains, Marker.Text, Expected;
    TimesOne(patches, k);
    ReadTextLines(t);
    forall l: Kind ensures Tolerates(t, Times(patches, l), l) { assert l == k || l == Other(k); }
    EveryInterleaving(t, patches);
    FilesAsTexts(t, patches);
    ExpectedOne(t, patches, k);
  }

  lemma {:induction false} AllOfOther(patches: seq<Payload>, k: Kind)
    requires Times(patches, k) == 0
    ensures forall p <- patches :: p.Kind() == Other(k)
  {
    if patches != [] {
      AllOfOther(patches[..|patches| - 1], k);
      assert forall p <- patches :: p == patches[|patches| - 1] || p in patches[..|patches| - 1];
    }
  }

  /** A patch brings no letters of the other writer that were not there. */
  lemma ToleratesOn(w: Word, times: nat, k: Kind)
    requires Tolerable(w, times, k) && times > 0 && !Both(w, k)
    ensures Tolerable(Patch(w, Other(k)), times, k)
  {
    hide First;
    var r := Patch(w, Other(k));
    assert forall m: Marker :: m in r && m.kind == k ==> m in w;
  }

  /** The other writer's patches behind the first one's append its section to whatever that one left. */
  lemma BehindFirst(base: string, patches: seq<Payload>, k: Kind)
    requires '\r' !in base && patches != [] && forall p <- patches :: Clean(p)
    requires patches[0].Kind() == k && Times(patches, k) == 1 && Times(patches, Other(k)) > 0
    requires !Both(Marks(base), Other(k)) && Tolerable(Marks(base), Times(patches, Other(k)), Other(k))
    ensures PatchTexts(base, patches)
      == RStrip(PatchText(base, patches[0])) + "\n\n" + Section(patches[|patches| - 1]) + "\n"
  {
    hide Marker.Text, Marks, Section, PatchText, PatchTexts, Patch, Clean, Times, RStrip, OneWriter;
    hide Tolerable, Tolerates, Both;
    var p, rest, o := patches[0], patches[1..], Other(k);
    var t := PatchText(base, p);
    HeadAndRest(patches);
    RestOfOther(patches, k);
    PatchTextsHead(base, p, rest);
    PatchLines(base, p);
    PatchMarks(base, p);
    ToleratesOn(Marks(base), |rest|, o);
    ToleratesWord(t, |rest|, o);
    Undisturbed(t, rest, o);
  }

  lemma HeadAndRest(patches: seq<Payload>)
    requires patches != []
    ensures patches[0] in patches && [patches[0]] + patches[1..] == patches
    ensures |patches| > 1 ==> patches[1..] != [] && patches[1..][|patches[1..]| - 1] == patches[|patches| - 1]
  {
  }

  lemma RestOfOther(patches: seq<Payload>, k: Kind)
    requires patches != [] && forall p <- patches :: Clean(p)
    requires patches[0].Kind() == k && Times(patches, k) == 1
    ensures OneWriter(patches[1..], Other(k)) && |patches[1..]| == Times(patches, Other(k))
  {
    hide Clean, Times;
    var rest := patches[1..];
    assert [patches[0]] + rest == patches;
    TimesHead(patches[0], rest, k);
    TimesTotal(patches, k);
    AllOfOther(rest, k);
    assert forall p <- rest :: p in patches;
  }

  lemma FirstCase(base: string, patches: seq<Payload>, k: Kind)
    requires '\r' !in base && patches != [] && forall p <- patches :: Clean(p)
    requires patches[0].Kind() == k && Times(patches, k) == 1 && Times(patches, Other(k)) > 0
    requires Ended(Marks(base), k) && Start(k) in Marks(base) && !Both(Marks(base), Other(k))
    requires Tolerable(Marks(base), Times(patches, Other(k)), Other(k))
    ensures PatchTexts(base, patches) != Expected(base, patches)
  {
    hide Marker.Text, Marks, Section, PatchText, PatchTexts, Clean, Ended, Times, RStrip, Expected, Tolerable, Both;
    var p, last, t := patches[0], patches[|patches| - 1], PatchText(base, patches[0]);
    assert p in patches;
    BehindFirst(base, patches, k);
    TimesHas(patches, k);
    TimesHas(patches, Other(k));
    OneDoubling(base, p);
    LastIsOther(patches, k);
    LatestFirst(patches, k);
    LatestLast(patches, Other(k));
    ExpectedTrimmed(base, patches);
    TrimmedEnd(RStrip(t) + "\n\n", last);
    Behind(RStrip(t), RStrip(base), "\n\n", Section(p), Section(last));
  }

  lemma Behind(t: string, r: string, gap: string, a: string, b: string)
    requires t != r + gap + a
    ensures t + gap + b != r + gap + (a + gap + b)
  {
    assert t + gap + b == t + (gap + b) && r + gap + (a + gap + b) == (r + gap + a) + (gap + b);
    if t + gap + b == r + gap + (a + gap + b) {
      SplitAt(t, gap + b, r + gap + a, gap + b);
    }
  }

  lemma LatestLast(patches: seq<Payload>, k: Kind)
    requires patches != [] && patches[|patches| - 1].Kind() == k
    ensures Has(patches, k) && Latest(patches, k) == patches[|patches| - 1]
  {
  }

  lemma {:induction false} LatestFirst(patches: seq<Payload>, k: Kind)
    requires patches != [] && patches[0].Kind() == k && Times(patches, k) == 1
    ensures Has(patches, k) && Latest(patches, k) == patches[0]
  {
    TimesHas(patches, k);
    if |patches| > 1 {
      var front := patches[..|patches| - 1];
      assert front[0] in front;
      TimesHas(front, k);
      LatestFirst(front, k);
    }
  }

  /** Where the other writer patched once, before: its section is just more text to double. */
  lemma LastCase(base: string, patches: seq<Payload>, k: Kind)
    requires |patches| == 2 && Clean(patches[0]) && Clean(patches[1])
    requires patches[0].Kind() == Other(k) && patches[1].Kind() == k
    requires Ended(Marks(base), k) && Start(k) in Marks(base) && !Both(Marks(base), Other(k))
    ensures PatchTexts(base, patches) != Expected(base, patches)
  {
    hide Marker.Text, Marks, Section, Contains, PatchText, Clean, RStrip, First;
    var p, q, o := patches[0], patches[1], Other(k);
    var t := PatchText(base, p);
    assert patches == [p] + [q] && [q] == [q] + [];
    PatchTextsHead(base, p, [q]);
    PatchTextsHead(t, q, []);
    MarksContain(base, Start(o));
    MarksContain(base, End(o));
    FirstPatch(base, p);
    PatchMarks(base, p);
    EndedConcat(Marks(base), Pair(o), k);
    OneDoubling(t, q);
    TrimmedEnd(RStrip(base) + "\n\n", p);
    LatestLast(patches, k);
    TwoPatches(patches, k);
    ExpectedTrimmed(base, patches);
    Regroup5(RStrip(base), "\n\n", Section(p), "\n\n", Section(q));
  }

  lemma TwoPatches(patches: seq<Payload>, k: Kind)
    requires |patches| == 2 && patches[0].Kind() == Other(k) && patches[1].Kind() == k
    ensures Has(patches, Readiness) && Has(patches, Probe)
    ensures Latest(patches, Other(k)) == patches[0]
  {
    assert patches[0] in patches && patches[1] in patches;
    assert patches[..1] == [patches[0]];
  }

  lemma AloneDoubling(base: string, p: Payload)
    requires Clean(p) && Ended(Marks(base), p.Kind()) && Start(p.Kind()) in Marks(base)
    ensures PatchTexts(base, [p]) != Expected(base, [p])
  {
    hide Marker.Text, Marks, Section, PatchText, Clean, RStrip, Ended;
    assert [p][..0] == [] && OneWriter([p], p.Kind());
    ExpectedOne(base, [p], p.Kind());
    OneDoubling(base, p);
    TrimmedEnd(RStrip(base) + "\n\n", p);
  }

  /** One way: a report with more markers of a writer than it tolerates does not come out as expected. */
  lemma NotTolerated(base: string, patches: seq<Payload>, bad: Kind)
    requires '\r' !in base && patches != [] && forall p <- patches :: Clean(p)
    requires !Tolerates(base, Times(patches, bad), bad)
    ensures PatchTexts(base, patches) != Expected(base, patches)
  {
    hide Marker.Text, Marks, Contains, PatchTexts, Patch, Clean, Ended, Times, RStrip, Expected, After;
    hide WholeInFront, First, Sections, Has;
    ToleratesWord(base, Times(patches, bad), bad);
    TimesTotal(patches, bad);
    if PatchTexts(base, patches) == Expected(base, patches) {
      var w := Marks(base);
      PatchedMarks(base, patches);
      ExpectedMarks(base, patches);
      if Times(patches, Other(bad)) == 0 {
        AllOfOther(patches, Other(bad));
        assert Sections(patches) == Pair(bad) by { OneSection(patches, bad); }
        AloneCase(w, patches, bad);
        assert patches == [patches[0]];
        AloneDoubling(base, patches[0]);
      } else {
        forall l: Kind ensures Times(patches, l) > 0 { assert l == bad || l == Other(bad); }
        var k := WordCases(w, patches, bad);
        TimesTotal(patches, k);
        LeftCases(base, patches, k);
      }
    }
  }

  lemma OneSection(patches: seq<Payload>, k: Kind)
    requires patches != [] && forall p <- patches :: p.Kind() == k
    ensures Sections(patches) == Pair(k) && patches[0].Kind() == k
  {
  }

  lemma LeftCases(base: string, patches: seq<Payload>, k: Kind)
    requires '\r' !in base && patches != [] && forall p <- patches :: Clean(p)
    requires Times(patches, Other(k)) > 0 && Left(Marks(base), patches, k)
    ensures PatchTexts(base, patches) != Expected(base, patches)
  {
    hide Marker.Text, Marks, Contains, PatchTexts, Patch, Clean, Ended, Times, RStrip, Expected, After;
    hide WholeInFront, First, Sections, Has;
    var o := Other(k);
    if WholeInFront(Marks(base), o, k) {
      WholeInFrontCase(base, patches, k);
    } else if patches[0].Kind() == k {
      FirstCase(base, patches, k);
    } else {
      TimesTotal(patches, k);
      LastIsOther(patches, o);
      LastCase(base, patches, k);
    }
  }

  /** Main theorem. Whatever the interleaving of the two writers and whatever the report: afterwards it is the
      expected one if and only if it held no more of each writer's markers than that writer tolerates. */
  lemma InterleavingExact(raw: string, patches: seq<Payload>)
    requires patches != [] && forall p <- patches :: Clean(p)
    ensures PatchAll(Content(raw), patches) == Content(Expected(ReadText(raw), patches))
       <==> forall k: Kind :: Tolerates(ReadText(raw), Times(patches, k), k)
  {
    hide PatchTexts, Clean, Contains, ReadText, Expected, Times, Marker.Text;
    var base := ReadText(raw);
    FilesAsTexts(raw, patches);
    ReadTextLines(raw);
    if forall k: Kind :: Tolerates(base, Times(patches, k), k) {
      EveryInterleaving(raw, patches);
    } else {
      var bad: Kind :| !Tolerates(base, Times(patches, bad), bad);
      NotTolerated(base, patches, bad);
    }
  }

  /** In particular for any number of patches of one writer. */
  lemma OneWriterExact(raw: string, patches: seq<Payload>, k: Kind)
    requires patches != [] && OneWriter(patches, k)
    ensures PatchAll(Content(raw), patches) == Content(Expected(ReadText(raw), patches))
       <==> Tolerates(ReadText(raw), |patches|, k)
  {
    hide PatchAll, Clean, Contains, ReadText, Expected, Marker.Text;
    TimesOne(patches, k);
    InterleavingExact(raw, patches);
    forall l: Kind ensures l == k || Tolerates(ReadText(raw), Times(patches, l), l) { assert l == k || l == Other(k); }
  }
}
