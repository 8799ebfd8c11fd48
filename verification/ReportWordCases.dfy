/** Which words can go on, after the patches of both writers, with just their two sections? If a writer had
    more of its markers than it tolerates, only where a single splice doubled what the other one needed. */
module ReportWordCases {
  import opened ReportSplice
  import opened ReportWords

  predicate Tolerable(w: Word, times: nat, k: Kind) {
    times == 0 || (times == 1 && !Both(w, k)) || Absent(w, k)
  }

  predicate Absent(w: Word, k: Kind) {
    Start(k) !in w && End(k) !in w
  }

  /** The writer splices once, with its end marker in front of its start marker. */
  predicate Doubler(w: Word, patches: seq<Payload>, k: Kind) {
    Ended(w, k) && Start(k) in w && Times(patches, k) == 1
  }

  /** A whole section stands first of the writer's markers, in front of the other one's start markers. */
  predicate WholeInFront(w: Word, k: Kind, other: Kind) {
    && Start(k) in w && Start(other) in w && Adjacent(w, k, First(w, Start(k)))
    && First(w, Start(k)) < First(w, Start(other))
  }

  /** What the letters alone do not rule out. */
  predicate Left(w: Word, patches: seq<Payload>, k: Kind)
    requires patches != []
  {
    var o := Other(k);
    && Doubler(w, patches, k)
    && (|| WholeInFront(w, o, k)
        || (!Both(w, o) && Tolerable(w, Times(patches, o), o) && (patches[0].Kind() == k || Times(patches, o) == 1)))
  }

  /** After the patches of both writers the word goes on with just their two sections. */
  ghost predicate AddsSections(w: Word, patches: seq<Payload>) {
    && patches != [] && (forall k: Kind :: Times(patches, k) > 0)
    && After(w, patches) == w + Sections(patches)
  }

  lemma BothHave(patches: seq<Payload>, k: Kind)
    requires Times(patches, k) > 0
    ensures Has(patches, k)
  {
    TimesHas(patches, k);
  }

  lemma SectionsOnce(patches: seq<Payload>, m: Marker)
    requires patches != [] && forall k: Kind :: Times(patches, k) > 0
    ensures var t := Sections(patches);
      && t == Pair(patches[0].Kind()) + Pair(Other(patches[0].Kind()))
      && |t| == 4 && multiset(t)[m] == 1 && t[0].Start?
  {
    hide Times, Has;
    assert patches[0] in patches;
    var f := patches[0].Kind();
    BothHave(patches, Other(f));
    assert Sections(patches) == [Start(f), End(f), Start(Other(f)), End(Other(f))];
    match m {
      case Start(k) => assert k == f || k == Other(f);
      case End(k) => assert k == f || k == Other(f);
    }
  }

  lemma {:induction false} AfterHead(w: Word, p: Payload, rest: seq<Payload>)
    ensures After(w, [p] + rest) == After(Patch(w, p.Kind()), rest)
  {
    hide Patch;
    var all := [p] + rest;
    if rest == [] {
      assert all[..0] == [] && all[0] == p;
    } else {
      assert all[..|all| - 1] == [p] + rest[..|rest| - 1];
      AfterHead(w, p, rest[..|rest| - 1]);
    }
  }

  lemma {:induction false} TimesHead(p: Payload, rest: seq<Payload>, k: Kind)
    ensures Times([p] + rest, k) == (if p.Kind() == k then 1 else 0) + Times(rest, k)
  {
    var all := [p] + rest;
    if rest == [] {
      assert all[..0] == [] && all[0] == p;
    } else {
      assert all[..|all| - 1] == [p] + rest[..|rest| - 1];
      TimesHead(p, rest[..|rest| - 1], k);
    }
  }

  /** A leading start marker whose writer splices belongs to a whole section, and the other writer must have
      doubled that one. */
  lemma WholeCase(w: Word, patches: seq<Payload>, k: Kind, a: nat)
    requires AddsSections(w, patches) && Leads(w, k, a) && Spliced(w, patches, k)
    requires NoneBefore(w, Start(Other(k)), a) || !Spliced(w, patches, Other(k))
    ensures Adjacent(w, k, a) && Doubler(w, patches, Other(k))
  {
    hide First, Patch, Times, After, Spliced, Sections, Repeat;
    var t := Sections(patches);
    SectionsOnce(patches, Start(k));
    SectionsOnce(patches, Start(Other(k)));
    FrontRun(w, patches, k, a);
    assert (w + t)[a + 1] == End(k);
    assert a + 1 < |w|;
    WholeRun(w, patches, k, a);
    OnlyByDoubling(w, Other(k), Times(patches, Other(k)), t);
  }

  /** Ended, absent or never spliced: then all patches lose nothing. */
  ghost predicate Harmless(w: Word, patches: seq<Payload>, k: Kind) {
    Ended(w, k) || Absent(w, k) || !Spliced(w, patches, k)
  }

  lemma HarmlessOnce(w: Word, patches: seq<Payload>, k: Kind)
    requires AddsSections(w, patches) && forall l: Kind :: Harmless(w, patches, l)
    ensures Tolerable(w, Times(patches, k), k) || Doubler(w, patches, k)
  {
    hide First, Patch, Times, After, Spliced, Sections;
    SectionsOnce(patches, Start(k));
    assert Harmless(w, patches, k);
    forall l: Kind ensures Mild(w, patches, l) { assert Harmless(w, patches, l); }
    hide Ended;
    if Ended(w, k) {
      MildRun(w, patches, k);
      assert multiset(w + Sections(patches)) == multiset(w) + multiset(Sections(patches));
    } else if !Absent(w, k) {
      NeverSpliced(w, patches, k);
    }
  }

  /** A doubler that is not the first to patch, with the other writer's section behind its start marker. */
  lemma NotBehind(w: Word, patches: seq<Payload>, k: Kind)
    requires AddsSections(w, patches) && Ended(w, k) && Start(k) in w
    requires patches[0].Kind() == Other(k)
    ensures !Absent(w, Other(k))
  {
    hide First, Patch, Times, After, Sections, Ended;
    var o, rest := Other(k), patches[1..];
    if Absent(w, o) {
      SectionsOnce(patches, Start(k));
      assert [patches[0]] + rest == patches;
      AfterHead(w, patches[0], rest);
      TimesHead(patches[0], rest, k);
      Appended(w, o);
      EndedConcat(w, Pair(o), k);
      FirstFront(w, Pair(o), Start(k));
      FirstBack(w, Pair(o), Start(o));
      assert w + Sections(patches) == w + Pair(o) + Pair(k);
      LeadGrows(w + Pair(o), rest, k, Pair(k));
    }
  }

  lemma HarmlessCase(w: Word, patches: seq<Payload>, k: Kind)
    requires AddsSections(w, patches) && forall l: Kind :: Harmless(w, patches, l)
    requires !Tolerable(w, Times(patches, k), k)
    requires !(Ended(w, Other(k)) && Start(Other(k)) in w)
    ensures Left(w, patches, k)
  {
    hide First, Patch, Times, After, Spliced, Sections, Ended, Harmless;
    HarmlessOnce(w, patches, k);
    HarmlessOnce(w, patches, Other(k));
    if patches[0].Kind() == Other(k) {
      NotBehind(w, patches, k);
    }
  }

  /** What is left when the letters fit and a writer had more of its markers than it tolerates. */
  lemma WordCases(w: Word, patches: seq<Payload>, bad: Kind) returns (k: Kind)
    requires AddsSections(w, patches) && !Tolerable(w, Times(patches, bad), bad)
    ensures Left(w, patches, k)
  {
    hide Patch, Times, After, Spliced, Sections, Ended, Adjacent, First;
    k := bad;
    var o := Other(bad);
    if !Ended(w, bad) { UnendedLeads(w, bad); }
    if !Ended(w, o) { UnendedLeads(w, o); }
    if Start(bad) in w && (Start(o) in w ==> First(w, Start(bad)) < First(w, Start(o))) {
      k := LeftmostCase(w, patches, bad, bad);
    } else if Start(o) in w {
      FirstsDiffer(w);
      k := LeftmostCase(w, patches, o, bad);
    } else {
      forall l: Kind ensures Harmless(w, patches, l) { assert l == bad || l == o; }
      HarmlessCase(w, patches, bad);
    }
  }

  lemma FirstsDiffer(w: Word)
    ensures Start(Readiness) in w && Start(Probe) in w ==> First(w, Start(Readiness)) != First(w, Start(Probe))
  {
    hide First;
  }

  lemma LeftmostCase(w: Word, patches: seq<Payload>, first: Kind, bad: Kind) returns (k: Kind)
    requires AddsSections(w, patches) && !Tolerable(w, Times(patches, bad), bad)
    requires Start(first) in w
    requires Start(Other(first)) in w ==> First(w, Start(first)) < First(w, Start(Other(first)))
    ensures Left(w, patches, k)
  {
    hide Patch, Times, After, Spliced, Sections, Ended, Adjacent, First;
    k := bad;
    var o, a := Other(first), First(w, Start(first));
    if !Ended(w, first) { UnendedLeads(w, first); }
    if !Ended(w, o) { UnendedLeads(w, o); }
    if Ended(w, first) && Start(o) in w {
      LeadGrows(w, patches, first, Sections(patches));
      assert false;
    } else if !Ended(w, first) && Spliced(w, patches, first) {
      WholeCase(w, patches, first, a);
      return o;
    } else if !Ended(w, o) && Start(o) in w && Spliced(w, patches, o) {
      WholeCase(w, patches, o, First(w, Start(o)));
      assert false;
    } else {
      forall l: Kind ensures Harmless(w, patches, l) { assert l == first || l == o; }
      HarmlessOnce(w, patches, bad);
      HarmlessCase(w, patches, bad);
    }
  }

  // ---------------------------------------------------------------- one writer alone

  lemma {:induction false} IdleNeverSplices(w: Word, patches: seq<Payload>, k: Kind)
    requires Times(patches, k) == 0
    ensures !Spliced(w, patches, k)
  {
    hide Patch;
    if patches != [] {
      IdleNeverSplices(w, patches[..|patches| - 1], k);
    }
  }

  /** With one writer alone too, only a single doubling splice can fit. */
  lemma AloneCase(w: Word, patches: seq<Payload>, k: Kind)
    requires Times(patches, Other(k)) == 0 && After(w, patches) == w + Pair(k)
    requires !Tolerable(w, Times(patches, k), k)
    ensures Doubler(w, patches, k)
  {
    hide First, Patch, Times, After, Spliced, Ended, Adjacent;
    IdleNeverSplices(w, patches, Other(k));
    if Ended(w, k) || !Spliced(w, patches, k) {
      forall l: Kind ensures Mild(w, patches, l) { assert l == k || l == Other(k); }
      assert multiset(w + Pair(k)) == multiset(w) + multiset(Pair(k));
      MildRun(w, patches, k);
      if !Spliced(w, patches, k) { NeverSpliced(w, patches, k); }
    } else {
      UnendedLeads(w, k);
      var a := First(w, Start(k));
      FrontRun(w, patches, k, a);
      AloneWhole(w, patches, k, a);
    }
  }

  lemma AloneWhole(w: Word, patches: seq<Payload>, k: Kind, a: nat)
    requires Leads(w, k, a) && Adjacent(After(w, patches), k, a)
    requires Times(patches, Other(k)) == 0 && !Spliced(w, patches, Other(k))
    ensures After(w, patches) != w + Pair(k)
  {
    hide Patch, Times, After, Spliced;
    if After(w, patches) == w + Pair(k) {
      assert (w + Pair(k))[a + 1] == End(k);
      WholeRun(w, patches, k, a);
    }
  }
}
