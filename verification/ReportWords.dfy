/** Reports as words: of a text only its markers are kept, in their order. What the patches of both writers
    do to such a word, and which words they can leave with one more section a writer at the end. */
module ReportWords {
  import opened ReportSplice

  type Word = seq<Marker>

  /** A letter does not stand before a position. */
  predicate NoneBefore(w: Word, m: Marker, n: nat)
    requires n <= |w|
  {
    forall i :: 0 <= i < n ==> w[i] != m
  }

  /** Where a letter first stands. */
  function First(w: Word, m: Marker): (i: nat)
    requires m in w
    ensures i < |w| && w[i] == m && NoneBefore(w, m, i)
  {
    if w[0] == m then 0 else 1 + First(w[1..], m)
  }

  predicate Both(w: Word, k: Kind) {
    Start(k) in w && End(k) in w
  }

  function Pair(k: Kind): Word {
    [Start(k), End(k)]
  }

  /** A splice, or what is appended without one of the two markers. */
  function Patch(w: Word, k: Kind): Word {
    if Both(w, k) then w[..First(w, Start(k))] + Pair(k) + w[First(w, End(k)) + 1..] else w + Pair(k)
  }

  function After(w: Word, patches: seq<Payload>): Word {
    if patches == [] then w else Patch(After(w, patches[..|patches| - 1]), patches[|patches| - 1].Kind())
  }

  /** The sections in the order of first insertion. */
  function Sections(patches: seq<Payload>): Word
    requires patches != []
  {
    var first := patches[0].Kind();
    Pair(first) + if Has(patches, Other(first)) then Pair(Other(first)) else []
  }

  /** Some patch of the writer finds both its markers. */
  predicate Spliced(w: Word, patches: seq<Payload>, k: Kind) {
    && patches != []
    && var front, last := patches[..|patches| - 1], patches[|patches| - 1];
       Spliced(w, front, k) || (last.Kind() == k && Both(After(w, front), k))
  }

  // ---------------------------------------------------------------- three ways to stand in a word

  /** An end marker comes before all start markers. */
  predicate Ended(w: Word, k: Kind) {
    End(k) in w && NoneBefore(w, Start(k), First(w, End(k)))
  }

  /** Start and end markers come in adjacent pairs only. */
  predicate Paired(w: Word, k: Kind) {
    && (forall i :: 0 <= i < |w| && w[i] == Start(k) ==> i + 1 < |w| && w[i + 1] == End(k))
    && (forall i :: 0 <= i < |w| && w[i] == End(k) ==> i > 0 && w[i - 1] == Start(k))
  }

  /** The first marker of the writer is a start marker at `a`, and the next letter its end marker. */
  predicate Adjacent(w: Word, k: Kind, a: nat) {
    && a + 1 < |w| && w[a] == Start(k) && w[a + 1] == End(k)
    && NoneBefore(w, Start(k), a) && NoneBefore(w, End(k), a)
  }

  lemma FirstIs(w: Word, m: Marker, i: nat)
    requires i < |w| && w[i] == m && NoneBefore(w, m, i)
    ensures m in w && First(w, m) == i
  {
  }

  /** A letter first found in a prefix. */
  lemma FirstFront(a: Word, b: Word, m: Marker)
    requires m in a
    ensures m in a + b && First(a + b, m) == First(a, m)
  {
    hide First;
    FirstIs(a + b, m, First(a, m));
  }

  lemma FirstBack(a: Word, b: Word, m: Marker)
    requires m !in a && m in b
    ensures m in a + b && First(a + b, m) == |a| + First(b, m)
  {
    hide First;
    assert (a + b)[|a| + First(b, m)] == m;
    FirstIs(a + b, m, |a| + First(b, m));
  }

  lemma AdjacentFirst(w: Word, k: Kind, a: nat)
    requires Adjacent(w, k, a)
    ensures Both(w, k) && First(w, Start(k)) == a && First(w, End(k)) == a + 1
    ensures Patch(w, k) == w
  {
    hide First;
    FirstIs(w, Start(k), a);
    FirstIs(w, End(k), a + 1);
    assert w[..a] + Pair(k) + w[a + 2..] == w;
  }

  lemma PairedFirst(w: Word, k: Kind)
    requires Paired(w, k) && (Start(k) in w || End(k) in w)
    ensures Both(w, k) && Adjacent(w, k, First(w, Start(k)))
  {
    hide First;
    if End(k) in w { assert w[First(w, End(k)) - 1] in w; }
    assert w[First(w, Start(k)) + 1] in w;
    var i, j := First(w, Start(k)), First(w, End(k));
    assert w[j - 1] == Start(k) && w[i + 1] == End(k);
  }

  lemma PairedPatch(w: Word, k: Kind)
    requires Paired(w, k)
    ensures Patch(w, k) == if Both(w, k) then w else w + Pair(k)
    ensures Paired(Patch(w, k), k)
  {
    hide First;
    if Start(k) in w || End(k) in w {
      PairedFirst(w, k);
      AdjacentFirst(w, k, First(w, Start(k)));
    } else {
      PairedConcat(w, Pair(k), k);
    }
  }

  /** A part of a word that is cut out between letters of the other writer. */
  lemma PairedPart(w: Word, k: Kind, lo: nat, hi: nat)
    requires Paired(w, k) && lo <= hi <= |w|
    requires (lo > 0 ==> w[lo - 1].kind != k) && (hi < |w| ==> w[hi].kind != k)
    ensures Paired(w[lo..hi], k)
  {
    var part := w[lo..hi];
    forall i | 0 <= i < |part| && part[i] == Start(k) ensures i + 1 < |part| && part[i + 1] == End(k) {
      assert w[lo + i] == Start(k);
    }
    forall i | 0 <= i < |part| && part[i] == End(k) ensures i > 0 && part[i - 1] == Start(k) {
      assert w[lo + i] == End(k);
    }
  }

  lemma PairedConcat(a: Word, b: Word, k: Kind)
    requires Paired(a, k) && Paired(b, k)
    ensures Paired(a + b, k)
  {
  }

  lemma PairedSplice(w: Word, k: Kind, i: nat, j: nat)
    requires Paired(w, k) && i < |w| && j < |w| && w[i].kind != k && w[j].kind != k
    ensures Paired(w[..i] + Pair(Other(k)) + w[j + 1..], k)
  {
    var o := Other(k);
    PairedPart(w, k, 0, i);
    PairedPart(w, k, j + 1, |w|);
    assert Paired(Pair(o), k);
    assert w[0..i] == w[..i] && w[j + 1..|w|] == w[j + 1..];
    hide Paired, Pair;
    PairedConcat(w[..i], Pair(o), k);
    PairedConcat(w[..i] + Pair(o), w[j + 1..], k);
  }

  lemma PairedOther(w: Word, k: Kind)
    requires Paired(w, k)
    ensures Paired(Patch(w, Other(k)), k)
  {
    hide First;
    var o := Other(k);
    if Both(w, o) {
      hide Paired, Pair;
      PairedSplice(w, k, First(w, Start(o)), First(w, End(o)));
    } else {
      assert Paired(Pair(o), k);
      hide Paired, Pair;
      PairedConcat(w, Pair(o), k);
    }
  }

  // ---------------------------------------------------------------- patches that lose nothing

  /** A splice where the end marker comes first doubles what stands between the two, and loses nothing. */
  lemma EndedParts(w: Word, k: Kind) returns (a: Word, v: Word, b: Word)
    requires Ended(w, k) && Start(k) in w
    ensures w == a + v + b && Patch(w, k) == a + v + Pair(k) + (v + b)
    ensures |a| == First(w, End(k)) + 1 && |a + v| == First(w, Start(k))
    ensures End(k) in a && Start(k) !in a && Start(k) !in v && Start(k) in b
  {
    hide First;
    var i, j := First(w, Start(k)), First(w, End(k));
    assert j < i;
    a, v, b := w[..j + 1], w[j + 1..i], w[i..];
    assert w[j] == a[j] && w[i] == b[0];
    assert w[..i] == a + v && w[j + 1..] == v + b;
  }

  lemma Doubled(a: Word, v: Word, b: Word, s: Marker, e: Marker)
    requires s != e && s !in a && s !in v
    ensures multiset(a + v + b) <= multiset(a + v + [s, e] + (v + b))
    ensures multiset(a + v + [s, e] + (v + b))[s] == multiset(a + v + b)[s] + 1
  {
    assert s !in multiset(a) && s !in multiset(v);
  }

  lemma EndedPatch(w: Word, k: Kind)
    requires Ended(w, k)
    ensures Ended(Patch(w, k), k)
    ensures multiset(w) <= multiset(Patch(w, k))
    ensures multiset(Patch(w, k))[Start(k)] == multiset(w)[Start(k)] + 1
  {
    hide First, Patch, Pair, Ended;
    if Start(k) in w {
      var a, v, b := EndedParts(w, k);
      assert Pair(k) == [Start(k), End(k)] by { PairIs(k); }
      Doubled(a, v, b, Start(k), End(k));
      EndedFront(a, v + Pair(k) + (v + b), k);
      Regroup3(a, v, Pair(k), v + b);
    } else {
      Appended(w, k);
      EndedConcat(w, Pair(k), k);
    }
  }

  lemma Regroup3(a: Word, b: Word, c: Word, d: Word)
    ensures a + (b + c + d) == a + b + c + d
  {
  }

  lemma PairIs(k: Kind)
    ensures Pair(k) == [Start(k), End(k)]
  {
  }

  lemma Appended(w: Word, k: Kind)
    requires !Both(w, k)
    ensures Patch(w, k) == w + Pair(k) && multiset(w) <= multiset(Patch(w, k))
    ensures multiset(Patch(w, k)) == multiset(w) + multiset{Start(k), End(k)}
  {
  }

  /** Whether the end marker comes first can be seen in any prefix that holds it. */
  lemma EndedFront(a: Word, b: Word, k: Kind)
    requires End(k) in a && Start(k) !in a
    ensures Ended(a + b, k)
  {
    hide First;
    FirstFront(a, b, End(k));
  }

  lemma EndedConcat(a: Word, b: Word, k: Kind)
    requires Ended(a, k)
    ensures Ended(a + b, k)
  {
    hide First;
    FirstFront(a, b, End(k));
  }

  /** A patch that appends, or whose splice loses nothing. */
  predicate Calm(w: Word, k: Kind) {
    Ended(w, k) || Paired(w, k)
  }

  lemma LosesNothing(w: Word, k: Kind)
    requires !Both(w, k) || Calm(w, k)
    ensures multiset(w) <= multiset(Patch(w, k))
  {
    hide Ended, Paired, Patch, Both, Pair;
    if !Both(w, k) {
      Appended(w, k);
    } else if Ended(w, k) {
      EndedPatch(w, k);
    } else {
      PairedPatch(w, k);
    }
  }

  lemma EndedSplit(c: Word, b: Word, k: Kind)
    ensures End(k) in c ==> (Ended(c + b, k) <==> Ended(c, k))
    ensures End(k) !in c ==> (Ended(c + b, k) <==> Start(k) !in c && Ended(b, k))
  {
    hide First;
    var w := c + b;
    assert forall i :: 0 <= i < |c| ==> c[i] == w[i];
    assert forall i :: 0 <= i < |b| ==> b[i] == w[|c| + i];
    assert forall i :: |c| <= i < |w| ==> w[i] == b[i - |c|];
    if End(k) in c {
      FirstFront(c, b, End(k));
    } else if End(k) in b {
      FirstBack(c, b, End(k));
    }
  }

  lemma EndedDoubled(front: Word, p: Word, v: Word, b: Word, k: Kind)
    requires Ended(front + b, k) && (forall m <- p :: m.kind != k) && (forall m <- v :: m in front)
    ensures Ended(front + p + v + b, k)
  {
    hide Ended;
    var w := front + p + v;
    EndedSplit(front, b, k);
    EndedSplit(front, p + v, k);
    EndedSplit(w, b, k);
    assert front + (p + v) == w;
  }

  /** Such a patch of the other writer leaves an end marker in front where it is. */
  lemma EndedOther(w: Word, k: Kind)
    requires Ended(w, k) && (!Both(w, Other(k)) || Calm(w, Other(k)))
    ensures Ended(Patch(w, Other(k)), k)
  {
    hide First, Patch, Pair, Both, Paired;
    var o := Other(k);
    if !Both(w, o) {
      Appended(w, o);
      EndedConcat(w, Pair(o), k);
    } else if Ended(w, o) && Start(o) in w {
      var a, v, b := EndedParts(w, o);
      assert Pair(o) == [Start(o), End(o)] by { PairIs(o); }
      EndedDoubled(a + v, Pair(o), v, b, k);
      assert a + v + Pair(o) + v + b == a + v + Pair(o) + (v + b);
    } else {
      BothHas(w, o);
      PairedPatch(w, o);
    }
  }

  lemma BothHas(w: Word, k: Kind)
    ensures Both(w, k) <==> Start(k) in w && End(k) in w
  {
  }

  // ---------------------------------------------------------------- runs that lose nothing

  ghost predicate Mild(w: Word, patches: seq<Payload>, k: Kind) {
    Calm(w, k) || !Spliced(w, patches, k)
  }

  lemma PatchHas(w: Word, k: Kind)
    ensures Both(Patch(w, k), k)
  {
    hide First;
    var r := Patch(w, k);
    if Both(w, k) {
      var i := First(w, Start(k));
      assert r[i] == Start(k) && r[i + 1] == End(k);
    } else {
      assert r[|w|] == Start(k) && r[|w| + 1] == End(k);
    }
  }

  lemma Kept(w: Word, r: Word, k: Kind)
    requires multiset(w) <= multiset(r)
    ensures Both(w, k) ==> Both(r, k)
  {
    assert forall m: Marker :: m in w ==> m in multiset(w) && m in multiset(r);
  }

  lemma MildStep(w: Word, p: Kind, k: Kind)
    requires !Both(w, p) || Calm(w, p)
    ensures Ended(w, k) ==>
      Ended(Patch(w, p), k)
      && multiset(Patch(w, p))[Start(k)] >= multiset(w)[Start(k)] + (if p == k then 1 else 0)
    ensures Paired(w, k) ==> Paired(Patch(w, p), k)
    ensures p == k || Both(w, k) ==> Both(Patch(w, p), k)
  {
    hide Ended, Paired, Patch, Both;
    LosesNothing(w, p);
    PatchHas(w, p);
    Kept(w, Patch(w, p), k);
    if p == k {
      if Ended(w, k) { EndedPatch(w, k); }
      if Paired(w, k) { PairedPatch(w, k); }
    } else {
      assert p == Other(k);
      if Ended(w, k) { EndedOther(w, k); }
      if Paired(w, k) { PairedOther(w, k); }
    }
  }

  lemma {:induction false} MildRun(w: Word, patches: seq<Payload>, k: Kind)
    requires forall l: Kind :: Mild(w, patches, l)
    ensures var r := After(w, patches);
      && multiset(w) <= multiset(r)
      && (Ended(w, k) ==> Ended(r, k) && multiset(r)[Start(k)] >= multiset(w)[Start(k)] + Times(patches, k))
      && (Paired(w, k) ==> Paired(r, k))
      && (Times(patches, k) > 0 ==> Both(r, k))
    decreases |patches|
  {
    hide Ended, Paired, Patch, Both;
    if patches != [] {
      var front, p := patches[..|patches| - 1], patches[|patches| - 1].Kind();
      var u := After(w, front);
      forall l: Kind ensures Mild(w, front, l) { assert Mild(w, patches, l); }
      MildRun(w, front, k);
      MildRun(w, front, p);
      assert Mild(w, patches, p);
      MildStep(u, p, k);
      LosesNothing(u, p);
    }
  }

  /** A writer that never splices in such a run patches once at most, and lacked a marker at first. */
  lemma {:induction false} NeverSpliced(w: Word, patches: seq<Payload>, k: Kind)
    requires (forall l: Kind :: Mild(w, patches, l)) && !Spliced(w, patches, k)
    ensures Times(patches, k) > 0 ==> Times(patches, k) == 1 && !Both(w, k)
    decreases |patches|
  {
    hide Ended, Paired, Patch, Both;
    if patches != [] {
      var front := patches[..|patches| - 1];
      forall l: Kind ensures Mild(w, front, l) { assert Mild(w, patches, l); }
      NeverSpliced(w, front, k);
      MildRun(w, front, k);
      Kept(w, After(w, front), k);
    }
  }

  // ---------------------------------------------------------------- a start marker that leads

  /** The first marker of the writer is a start marker at `a`. */
  predicate Leads(w: Word, k: Kind, a: nat) {
    a < |w| && w[a] == Start(k) && NoneBefore(w, Start(k), a) && NoneBefore(w, End(k), a)
  }

  lemma LeadsFirst(w: Word, k: Kind, a: nat)
    requires Leads(w, k, a)
    ensures Start(k) in w && First(w, Start(k)) == a
    ensures End(k) in w ==> First(w, End(k)) > a
  {
    hide First;
    FirstIs(w, Start(k), a);
  }

  lemma SameFront(w: Word, r: Word, k: Kind, a: nat)
    requires Leads(w, k, a) && a < |r| && r[..a + 1] == w[..a + 1]
    ensures Leads(r, k, a)
    ensures NoneBefore(w, Start(Other(k)), a) ==> NoneBefore(r, Start(Other(k)), a)
  {
    assert forall i :: 0 <= i <= a ==> r[i] == r[..a + 1][i] == w[..a + 1][i] == w[i];
  }

  lemma OwnKeepsFront(w: Word, k: Kind, a: nat)
    requires Leads(w, k, a)
    ensures var r := Patch(w, k); a < |r| && r[..a + 1] == w[..a + 1] && (Both(w, k) ==> Adjacent(r, k, a))
  {
    hide First;
    LeadsFirst(w, k, a);
    var r := Patch(w, k);
    assert forall i :: 0 <= i < a ==> r[i] == w[i];
    assert r[a] == w[a] && (Both(w, k) ==> r[a + 1] == End(k));
  }

  lemma OtherKeepsFront(w: Word, k: Kind, a: nat)
    requires Leads(w, k, a) && (NoneBefore(w, Start(Other(k)), a) || !Both(w, Other(k)))
    ensures var r := Patch(w, Other(k));
      a < |r| && r[..a + 1] == w[..a + 1] && (Adjacent(w, k, a) ==> Adjacent(r, k, a))
  {
    hide First;
    var o, r := Other(k), Patch(w, Other(k));
    if Both(w, o) {
      var i := First(w, Start(o));
      assert i > a && (Adjacent(w, k, a) ==> i > a + 1);
      assert forall x :: 0 <= x < i ==> r[x] == w[x];
    } else {
      assert forall x :: 0 <= x < |w| ==> r[x] == w[x];
    }
  }

  /** As long as the other writer starts further right, or never splices, the word stays as it is up to the
      start marker; once the writer has spliced, its end marker comes next. */
  lemma {:induction false} FrontRun(w: Word, patches: seq<Payload>, k: Kind, a: nat)
    requires Leads(w, k, a)
    requires NoneBefore(w, Start(Other(k)), a) || !Spliced(w, patches, Other(k))
    ensures var r := After(w, patches);
      a < |r| && r[..a + 1] == w[..a + 1] && (Spliced(w, patches, k) ==> Adjacent(r, k, a))
    decreases |patches|
  {
    hide Patch, Both, NoneBefore, Adjacent, First;
    if patches != [] {
      var front, p := patches[..|patches| - 1], patches[|patches| - 1].Kind();
      var u := After(w, front);
      FrontRun(w, front, k, a);
      SameFront(w, u, k, a);
      if p == k {
        if Adjacent(u, k, a) { AdjacentFirst(u, k, a); }
        OwnKeepsFront(u, k, a);
      } else {
        OtherKeepsFront(u, k, a);
      }
    }
  }

  function Repeat(w: Word, k: Kind, n: nat): Word {
    if n == 0 then w else Patch(Repeat(w, k, n - 1), k)
  }

  /** A writer whose leading section is whole changes nothing, so only the other one counts. */
  lemma {:induction false} WholeRun(w: Word, patches: seq<Payload>, k: Kind, a: nat)
    requires Adjacent(w, k, a)
    requires NoneBefore(w, Start(Other(k)), a) || !Spliced(w, patches, Other(k))
    ensures After(w, patches) == Repeat(w, Other(k), Times(patches, Other(k)))
    ensures Adjacent(After(w, patches), k, a)
    decreases |patches|
  {
    hide Patch, Both, Leads, NoneBefore, Adjacent;
    if patches != [] {
      var front, p := patches[..|patches| - 1], patches[|patches| - 1].Kind();
      var u := After(w, front);
      AdjacentLeads(w, k, a);
      FrontRun(w, front, k, a);
      SameFront(w, u, k, a);
      WholeRun(w, front, k, a);
      if p == k {
        AdjacentFirst(u, k, a);
      } else {
        OtherKeepsFront(u, k, a);
      }
    }
  }

  lemma AdjacentLeads(w: Word, k: Kind, a: nat)
    requires Adjacent(w, k, a)
    ensures Leads(w, k, a)
  {
  }

  // ---------------------------------------------------------------- one writer alone

  lemma {:induction false} RepeatEnded(w: Word, k: Kind, n: nat)
    requires Ended(w, k)
    ensures Ended(Repeat(w, k, n), k)
    ensures multiset(Repeat(w, k, n))[Start(k)] == multiset(w)[Start(k)] + n
  {
    hide Ended, Patch;
    if n > 0 {
      RepeatEnded(w, k, n - 1);
      EndedPatch(Repeat(w, k, n - 1), k);
    }
  }

  lemma CutOut(a: Word, b: Word, c: Word, p: Word, m: Marker)
    requires m !in p
    ensures multiset(a + p + c)[m] <= multiset(a + b + c)[m]
  {
    assert m !in multiset(p);
  }

  lemma LeadsUnended(w: Word, k: Kind, a: nat)
    requires Leads(w, k, a)
    ensures !Ended(w, k)
  {
    hide First;
    LeadsFirst(w, k, a);
  }

  /** No end marker in front: a start marker leads, or there is no marker. */
  lemma UnendedLeads(w: Word, k: Kind)
    requires !Ended(w, k)
    ensures if Start(k) in w then Leads(w, k, First(w, Start(k))) else End(k) !in w
  {
    hide First;
  }

  lemma UnendedPatch(w: Word, k: Kind)
    requires !Ended(w, k)
    ensures !Ended(Patch(w, k), k)
  {
    hide First, Leads, Ended, Pair, Patch;
    var r := Patch(w, k);
    UnendedLeads(w, k);
    if Start(k) in w {
      var i := First(w, Start(k));
      OwnKeepsFront(w, k, i);
      SameFront(w, r, k, i);
      LeadsUnended(r, k, i);
    } else {
      LeadsAppended(w, k);
      LeadsUnended(r, k, |w|);
    }
  }

  lemma LeadingParts(w: Word, k: Kind) returns (a: Word, b: Word, c: Word)
    requires !Ended(w, k) && Both(w, k)
    ensures w == a + b + c && Patch(w, k) == a + Pair(k) + c
  {
    hide First, Ended, Leads;
    UnendedLeads(w, k);
    var i, j := First(w, Start(k)), First(w, End(k)) + 1;
    LeadsFirst(w, k, i);
    a, b, c := w[..i], w[i..j], w[j..];
    assert w[..j] == a + b;
  }

  lemma LeadingPatch(w: Word, k: Kind)
    requires !Ended(w, k)
    ensures !Ended(Patch(w, k), k)
    ensures multiset(Patch(w, k))[Start(Other(k))] <= multiset(w)[Start(Other(k))]
  {
    hide First, Leads, Ended, Pair, Patch;
    UnendedPatch(w, k);
    assert Pair(k) == [Start(k), End(k)] by { PairIs(k); }
    if Both(w, k) {
      var a, b, c := LeadingParts(w, k);
      CutOut(a, b, c, Pair(k), Start(Other(k)));
    } else {
      Appended(w, k);
    }
  }

  lemma LeadsAppended(w: Word, k: Kind)
    requires Start(k) !in w && End(k) !in w
    ensures Leads(Patch(w, k), k, |w|)
  {
  }

  lemma {:induction false} RepeatLeading(w: Word, k: Kind, n: nat)
    requires !Ended(w, k)
    ensures !Ended(Repeat(w, k, n), k)
    ensures multiset(Repeat(w, k, n))[Start(Other(k))] <= multiset(w)[Start(Other(k))]
  {
    hide Ended, Patch;
    if n > 0 {
      RepeatLeading(w, k, n - 1);
      LeadingPatch(Repeat(w, k, n - 1), k);
    }
  }

  /** Patches of one writer give both writers a section more only by a single splice with the end marker first. */
  lemma OnlyByDoubling(w: Word, k: Kind, n: nat, t: Word)
    requires Repeat(w, k, n) == w + t && |t| == 4
    requires multiset(t)[Start(k)] == 1 && multiset(t)[Start(Other(k))] == 1
    ensures Ended(w, k) && Start(k) in w && n == 1
  {
    hide First, Ended, Patch;
    assert multiset(w + t) == multiset(w) + multiset(t);
    if Ended(w, k) {
      RepeatEnded(w, k, n);
      assert Repeat(w, k, n) == Patch(Repeat(w, k, 0), k);
      if !Both(w, k) { Appended(w, k); }
    } else {
      RepeatLeading(w, k, n);
    }
  }

  // ---------------------------------------------------------------- doubling in front of the other writer's start

  /** The writer has its end marker in front and starts before the other writer does. */
  predicate DoublesBefore(w: Word, k: Kind) {
    Ended(w, k) && Start(k) in w && Start(Other(k)) in w && First(w, Start(k)) < First(w, Start(Other(k)))
  }

  /** How often the writer starts before the other one does. */
  function Lead(w: Word, k: Kind): nat
    requires Start(Other(k)) in w
  {
    multiset(w[..First(w, Start(Other(k)))])[Start(k)]
  }

  lemma LeadDoubled(w: Word, k: Kind)
    requires DoublesBefore(w, k)
    ensures DoublesBefore(Patch(w, k), k) && Lead(Patch(w, k), k) == Lead(w, k) + 1
  {
    hide First, Patch, Ended, Pair, Lead;
    var a, v, b := EndedParts(w, k);
    assert Pair(k) == [Start(k), End(k)] by { PairIs(k); }
    EndedPatch(w, k);
    AbsentInFront(a + v, b, Start(Other(k)));
    LeadOfDoubled(a + v, v, b, k);
    assert a + v + Pair(k) + v + b == Patch(w, k);
  }

  lemma LeadOfDoubled(front: Word, v: Word, b: Word, k: Kind)
    requires Start(k) !in front && Start(k) !in v && Start(Other(k)) !in front && Start(Other(k)) in b
    requires forall m <- v :: m in front
    ensures var w, r := front + b, front + Pair(k) + v + b;
      && Start(k) in r && Start(Other(k)) in r && Start(Other(k)) in w
      && First(r, Start(k)) < First(r, Start(Other(k)))
      && Lead(r, k) == Lead(w, k) + 1
  {
    hide First;
    var m, n, p := Start(Other(k)), First(b, Start(Other(k))), Pair(k);
    var w, r := front + b, front + p + v + b;
    FirstBack(front, b, m);
    FirstBack(front + p + v, b, m);
    assert r[|front|] == Start(k);
    FirstIs(r, Start(k), |front|);
    assert w[..First(w, m)] == front + b[..n];
    assert r[..First(r, m)] == front + p + v + b[..n];
    CountDoubled(front, p, v, b[..n], Start(k));
  }

  lemma AbsentInFront(a: Word, b: Word, m: Marker)
    requires m in a + b && First(a + b, m) >= |a|
    ensures m !in a && m in b
  {
    hide First;
    assert forall i :: 0 <= i < |a| ==> a[i] == (a + b)[i];
  }

  lemma CountDoubled(front: Word, p: Word, v: Word, b: Word, s: Marker)
    requires s !in front && s !in v && multiset(p)[s] == 1
    ensures multiset(front + p + v + b)[s] == multiset(front + b)[s] + 1
  {
    assert s !in multiset(front) && s !in multiset(v);
  }

  lemma LeadKept(w: Word, k: Kind)
    requires DoublesBefore(w, k)
    ensures var r := Patch(w, Other(k)); DoublesBefore(r, k) && Lead(r, k) == Lead(w, k)
  {
    hide First;
    var r, m := Patch(w, Other(k)), Start(Other(k));
    var n := First(w, m);
    assert |r| > n && r[n] == m && r[..n] == w[..n];
    assert forall i :: 0 <= i < n ==> r[i] == r[..n][i] == w[..n][i] == w[i];
    FirstIs(r, m, n);
    FirstIs(r, Start(k), First(w, Start(k)));
    FirstIs(r, End(k), First(w, End(k)));
  }

  lemma {:induction false} LeadRun(w: Word, patches: seq<Payload>, k: Kind)
    requires DoublesBefore(w, k)
    ensures DoublesBefore(After(w, patches), k)
    ensures Lead(After(w, patches), k) == Lead(w, k) + Times(patches, k)
    decreases |patches|
  {
    hide DoublesBefore, Lead, Patch;
    if patches != [] {
      var front, p := patches[..|patches| - 1], patches[|patches| - 1].Kind();
      LeadRun(w, front, k);
      if p == k {
        LeadDoubled(After(w, front), k);
      } else {
        LeadKept(After(w, front), k);
      }
    }
  }

  /** So such a writer leaves a word that does not go on as the original one did. */
  lemma LeadGrows(w: Word, patches: seq<Payload>, k: Kind, t: Word)
    requires DoublesBefore(w, k) && Times(patches, k) > 0
    ensures After(w, patches) != w + t
  {
    hide First;
    LeadRun(w, patches, k);
    var m := Start(Other(k));
    FirstFront(w, t, m);
    assert (w + t)[..First(w, m)] == w[..First(w, m)];
  }
}
