/** Python string primitives the repository's text code is built from: whitespace
    stripping, substring search, single-character replacement and joining. */
module Text {

  /** `str.isspace` on one character. */
  predicate IsSpace(c: char) {
    var n := c as int;
    || 9 <= n <= 13 || 28 <= n <= 32 || n == 0x85 || n == 0xA0 || n == 0x1680
    || 0x2000 <= n <= 0x200A || n == 0x2028 || n == 0x2029 || n == 0x202F || n == 0x205F || n == 0x3000
  }

  predicate AllSpace(s: string) {
    forall i :: 0 <= i < |s| ==> IsSpace(s[i])
  }

  /** `s.rstrip()`. */
  function RStrip(s: string): string {
    if s != "" && IsSpace(s[|s| - 1]) then RStrip(s[..|s| - 1]) else s
  }

  /** `s.lstrip()`. */
  function LStrip(s: string): string {
    if s != "" && IsSpace(s[0]) then LStrip(s[1..]) else s
  }

  lemma KeptPrefix(front: string, c: char, n: nat)
    requires n <= |front| && AllSpace(front[n..]) && IsSpace(c)
    ensures (front + [c])[..n] == front[..n] && AllSpace((front + [c])[n..])
  {
    hide IsSpace;
    assert (front + [c])[n..] == front[n..] + [c];
  }

  /** What `rstrip` keeps is a prefix without whitespace at its end; it drops only whitespace. */
  lemma {:induction false} RStripShape(s: string)
    ensures var r := RStrip(s);
      && |r| <= |s| && r == s[..|r|] && AllSpace(s[|r|..])
      && (r != "" ==> !IsSpace(r[|r| - 1]))
  {
    hide IsSpace, AllSpace;
    if s != "" && IsSpace(s[|s| - 1]) {
      var front, c := s[..|s| - 1], s[|s| - 1];
      RStripShape(front);
      KeptPrefix(front, c, |RStrip(s)|);
      assert front + [c] == s;
    } else {
      assert s[..|s|] == s && s[|s|..] == "";
      NothingIsSpace();
    }
  }

  lemma NothingIsSpace()
    ensures AllSpace("")
  {
  }

  lemma KeptSuffix(c: char, back: string, n: nat)
    requires n <= |back| && AllSpace(back[..|back| - n]) && IsSpace(c)
    ensures ([c] + back)[|[c] + back| - n..] == back[|back| - n..]
    ensures AllSpace(([c] + back)[..|[c] + back| - n])
  {
    hide IsSpace;
    assert ([c] + back)[..|[c] + back| - n] == [c] + back[..|back| - n];
  }

  /** What `lstrip` keeps is a suffix without whitespace at its start; it drops only whitespace. */
  lemma {:induction false} LStripShape(s: string)
    ensures var r := LStrip(s);
      && |r| <= |s| && r == s[|s| - |r|..] && AllSpace(s[..|s| - |r|])
      && (r != "" ==> !IsSpace(r[0]))
  {
    hide IsSpace, AllSpace;
    if s != "" && IsSpace(s[0]) {
      var c, back := s[0], s[1..];
      LStripShape(back);
      KeptSuffix(c, back, |LStrip(s)|);
      assert [c] + back == s;
    } else {
      assert s[0..] == s && s[..0] == "";
      NothingIsSpace();
    }
  }

  /** `s.strip()`. */
  function Strip(s: string): string {
    LStrip(RStrip(s))
  }

  /** Stripping drops whitespace at both ends and nothing else. */
  lemma StripMeaning(s: string)
    ensures exists before, after :: s == before + Strip(s) + after && AllSpace(before) && AllSpace(after)
    ensures Strip(s) != "" ==> !IsSpace(Strip(s)[0]) && !IsSpace(Strip(s)[|Strip(s)| - 1])
  {
    hide IsSpace, AllSpace, RStrip, LStrip;
    var r := RStrip(s);
    var kept := LStrip(r);
    RStripShape(s);
    LStripShape(r);
    assert s == r[..|r| - |kept|] + kept + s[|r|..];
  }

  /** Truth of `s.strip()`: something other than whitespace is there. */
  predicate NonBlank(s: string) {
    Strip(s) != ""
  }

  lemma {:induction false} RStripUnique(kept: string, blank: string)
    requires AllSpace(blank)
    requires kept != "" ==> !IsSpace(kept[|kept| - 1])
    ensures RStrip(kept + blank) == kept
  {
    if blank == "" {
      assert kept + blank == kept;
    } else {
      assert (kept + blank)[..|kept + blank| - 1] == kept + blank[..|blank| - 1];
      RStripUnique(kept, blank[..|blank| - 1]);
    }
  }

  lemma {:induction false} LStripUnique(blank: string, kept: string)
    requires AllSpace(blank)
    requires kept != "" ==> !IsSpace(kept[0])
    ensures LStrip(blank + kept) == kept
  {
    if blank == "" {
      assert blank + kept == kept;
    } else {
      assert (blank + kept)[1..] == blank[1..] + kept;
      LStripUnique(blank[1..], kept);
    }
  }

  /** `needle` stands in `s` at position `i`. */
  predicate OccursAt(s: string, needle: string, i: int) {
    0 <= i <= |s| - |needle| && s[i..i + |needle|] == needle
  }

  /** `needle in s`. */
  predicate Contains(s: string, needle: string) {
    exists i {:trigger OccursAt(s, needle, i)} :: 0 <= i <= |s| && OccursAt(s, needle, i)
  }

  /** `s.index(needle)`: the first position at which `needle` stands. */
  function IndexOf(s: string, needle: string): (i: nat)
    requires Contains(s, needle)
    ensures OccursAt(s, needle, i)
    ensures forall j :: 0 <= j < i ==> !OccursAt(s, needle, j)
  {
    IndexFrom(s, needle, 0)
  }

  function IndexFrom(s: string, needle: string, from: nat): (i: nat)
    requires from <= |s|
    requires exists k {:trigger OccursAt(s, needle, k)} :: from <= k <= |s| && OccursAt(s, needle, k)
    ensures from <= i && OccursAt(s, needle, i)
    ensures forall j :: from <= j < i ==> !OccursAt(s, needle, j)
    decreases |s| - from
  {
    if OccursAt(s, needle, from) then from else IndexFrom(s, needle, from + 1)
  }

  /** `s.replace(old, new)` for a one-character `old`. */
  function Replace(s: string, old_: char, new_: string): string {
    if s == "" then "" else (if s[0] == old_ then new_ else [s[0]]) + Replace(s[1..], old_, new_)
  }

  /** `sep.join(parts)`. */
  function Join(sep: string, parts: seq<string>): string {
    if |parts| == 0 then "" else if |parts| == 1 then parts[0] else parts[0] + sep + Join(sep, parts[1..])
  }
}
