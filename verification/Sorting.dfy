/** `sorted(...)` over the keys of a dictionary or a counter. */
module Sorting {

  ghost predicate TotalOrder<T(!new)>(le: (T, T) -> bool) {
    && (forall a, b :: le(a, b) || le(b, a))
    && (forall a, b :: le(a, b) && le(b, a) ==> a == b)
    && (forall a, b, c :: le(a, b) && le(b, c) ==> le(a, c))
  }

  ghost predicate IsLeast<T(!new)>(x: T, s: set<T>, le: (T, T) -> bool) {
    x in s && forall y <- s :: le(x, y)
  }

  lemma {:induction false} LeastExists<T(!new)>(s: set<T>, le: (T, T) -> bool)
    requires s != {} && TotalOrder(le)
    ensures exists x :: IsLeast(x, s, le)
  {
    var x :| x in s;
    if s == {x} {
      assert IsLeast(x, s, le);
    } else {
      LeastExists(s - {x}, le);
      var rest :| IsLeast(rest, s - {x}, le);
      var least := if le(x, rest) then x else rest;
      assert forall y <- s :: y == x || y in s - {x};
      assert IsLeast(least, s, le);
    }
  }

  ghost function Least<T(!new)>(s: set<T>, le: (T, T) -> bool): (x: T)
    requires s != {} && TotalOrder(le)
    ensures IsLeast(x, s, le)
  {
    LeastExists(s, le);
    var x :| IsLeast(x, s, le);
    x
  }

  /** The elements of `s` in ascending order. */
  ghost function Sorted<T(!new)>(s: set<T>, le: (T, T) -> bool): seq<T>
    requires TotalOrder(le)
  {
    if s == {} then [] else [Least(s, le)] + Sorted(s - {Least(s, le)}, le)
  }

  lemma NothingSorted<T(!new)>(le: (T, T) -> bool)
    requires TotalOrder(le)
    ensures Sorted({}, le) == []
  {
  }

  lemma LeastFirst<T(!new)>(s: set<T>, le: (T, T) -> bool, x: T)
    requires TotalOrder(le) && IsLeast(x, s, le)
    ensures Sorted(s, le) == [x] + Sorted(s - {x}, le)
  {
    var least := Least(s, le);
    assert le(least, x) && le(x, least);
  }

  /** Each element once, none invented, in order. */
  lemma {:induction false} SortedShape<T(!new)>(s: set<T>, le: (T, T) -> bool)
    requires TotalOrder(le)
    ensures var r := Sorted(s, le);
      && (forall x :: x in r <==> x in s)
      && (forall i, j :: 0 <= i < j < |r| ==> r[i] != r[j] && le(r[i], r[j]))
  {
    if s != {} {
      var least := Least(s, le);
      var rest := Sorted(s - {least}, le);
      SortedShape(s - {least}, le);
      assert forall j :: 0 <= j < |rest| ==> rest[j] in s - {least};
    }
  }

  /** Python's order on strings: by code point, a prefix first. */
  predicate StringLe(a: string, b: string) {
    a == "" || (b != "" && (a[0] < b[0] || (a[0] == b[0] && StringLe(a[1..], b[1..]))))
  }

  /** A prefix comes first; otherwise the first different character decides. */
  lemma {:induction false} StringLeMeaning(a: string, b: string)
    ensures StringLe(a, b) <==>
      a <= b || exists i :: 0 <= i < |a| && i < |b| && a[..i] == b[..i] && a[i] < b[i]
  {
    if a != "" && b != "" && a[0] == b[0] {
      StringLeMeaning(a[1..], b[1..]);
      assert a == [a[0]] + a[1..] && b == [b[0]] + b[1..];
      if i :| 0 <= i < |a[1..]| && i < |b[1..]| && a[1..][..i] == b[1..][..i] && a[1..][i] < b[1..][i] {
        assert a[..i + 1] == [a[0]] + a[1..][..i] && b[..i + 1] == [b[0]] + b[1..][..i];
        assert a[i + 1] < b[i + 1];
      }
      if i :| 0 <= i < |a| && i < |b| && a[..i] == b[..i] && a[i] < b[i] {
        assert i > 0;
        assert a[1..][..i - 1] == a[..i][1..] && b[1..][..i - 1] == b[..i][1..];
        assert a[1..][i - 1] < b[1..][i - 1];
      }
    } else if a != "" && b != "" {
      assert a[..0] == b[..0];
      if i :| 0 <= i < |a| && i < |b| && a[..i] == b[..i] && a[i] < b[i] {
        assert i > 0 ==> a[..i][0] == b[..i][0];
      }
    }
  }

  /** Python's order on pairs. */
  predicate PairLe(a: (string, string), b: (string, string)) {
    if a.0 == b.0 then StringLe(a.1, b.1) else StringLe(a.0, b.0)
  }

  lemma {:induction false} StringLeTotal(a: string, b: string)
    ensures StringLe(a, b) || StringLe(b, a)
    ensures StringLe(a, b) && StringLe(b, a) ==> a == b
  {
    if a != "" && b != "" {
      StringLeTotal(a[1..], b[1..]);
      assert a == [a[0]] + a[1..] && b == [b[0]] + b[1..];
    }
  }

  lemma {:induction false} StringLeTransitive(a: string, b: string, c: string)
    requires StringLe(a, b) && StringLe(b, c)
    ensures StringLe(a, c)
  {
    if a != "" && a[0] == b[0] == c[0] {
      StringLeTransitive(a[1..], b[1..], c[1..]);
    }
  }

  lemma StringOrder()
    ensures TotalOrder(StringLe)
  {
    forall a, b ensures StringLe(a, b) || StringLe(b, a) { StringLeTotal(a, b); }
    forall a, b | StringLe(a, b) && StringLe(b, a) ensures a == b { StringLeTotal(a, b); }
    forall a, b, c | StringLe(a, b) && StringLe(b, c) ensures StringLe(a, c) { StringLeTransitive(a, b, c); }
  }

  lemma PairOrder()
    ensures TotalOrder(PairLe)
  {
    StringOrder();
  }

  ghost function SortedStrings(s: set<string>): seq<string> {
    StringOrder();
    Sorted(s, StringLe)
  }

  ghost function SortedPairs(s: set<(string, string)>): seq<(string, string)> {
    PairOrder();
    Sorted(s, PairLe)
  }

  lemma SortedStringsShape(s: set<string>)
    ensures var r := SortedStrings(s);
      && (forall x :: x in r <==> x in s)
      && (forall i, j :: 0 <= i < j < |r| ==> r[i] != r[j] && StringLe(r[i], r[j]))
  {
    StringOrder();
    SortedShape(s, StringLe);
  }

  lemma SortedPairsShape(s: set<(string, string)>)
    ensures var r := SortedPairs(s);
      && (forall x :: x in r <==> x in s)
      && (forall i, j :: 0 <= i < j < |r| ==> r[i] != r[j] && PairLe(r[i], r[j]))
  {
    PairOrder();
    SortedShape(s, PairLe);
  }

  method SortStrings(s: set<string>) returns (r: seq<string>)
    ensures r == SortedStrings(s)
  {
    hide StringLe, Sorted;
    StringOrder();
    NothingSorted(StringLe);
    r := [];
    var rest := s;
    while rest != {}
      invariant r + SortedStrings(rest) == SortedStrings(s)
      decreases rest
    {
      assert IsLeast(Least(rest, StringLe), rest, StringLe);
      var x :| x in rest && forall y <- rest :: StringLe(x, y);
      LeastFirst(rest, StringLe, x);
      r, rest := r + [x], rest - {x};
    }
  }

  method SortPairs(s: set<(string, string)>) returns (r: seq<(string, string)>)
    ensures r == SortedPairs(s)
  {
    hide StringLe, PairLe, Sorted;
    PairOrder();
    NothingSorted(PairLe);
    r := [];
    var rest := s;
    while rest != {}
      invariant r + SortedPairs(rest) == SortedPairs(s)
      decreases rest
    {
      assert IsLeast(Least(rest, PairLe), rest, PairLe);
      var x :| x in rest && forall y <- rest :: PairLe(x, y);
      LeastFirst(rest, PairLe, x);
      r, rest := r + [x], rest - {x};
    }
  }

  /** Sum of the counts of the listed elements. */
  function CountSum<T(==)>(names: seq<T>, counts: multiset<T>): nat {
    if names == [] then 0 else counts[names[0]] + CountSum(names[1..], counts)
  }

  lemma {:induction false} CountSumSame<T>(names: seq<T>, a: multiset<T>, b: multiset<T>)
    requires forall i :: 0 <= i < |names| ==> a[names[i]] == b[names[i]]
    ensures CountSum(names, a) == CountSum(names, b)
  {
    if names != [] {
      assert a[names[0]] == b[names[0]];
      CountSumSame(names[1..], a, b);
    }
  }

  /** Listing every counted element once accounts for everything counted. */
  lemma {:induction false} CountSumTotal<T>(names: seq<T>, counts: multiset<T>)
    requires forall i, j :: 0 <= i < j < |names| ==> names[i] != names[j]
    requires forall e <- counts :: e in names
    ensures CountSum(names, counts) == |counts|
  {
    if names == [] {
      assert counts == multiset{};
    } else {
      var x, rest := names[0], counts[names[0] := 0];
      assert counts == rest + multiset{}[x := counts[x]];
      assert forall i :: 0 <= i < |names[1..]| ==> names[1..][i] != x;
      CountSumSame(names[1..], counts, rest);
      CountSumTotal(names[1..], rest);
    }
  }
}
